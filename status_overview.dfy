/**
 * The project page's status overview: nothing for a closed project;
 * otherwise the status and a completion summary of the project's
 * milestones. The summary counts pending and done milestones and shows one
 * of three things: "not yet set", "all completed", or a pie chart with a
 * "done/total milestones completed" caption.
 *
 * The pie chart's percentage is a floating-point ratio; only the facts that
 * make it well defined (a positive total, done below it) are stated.
 */
module StatusOverview {
  import opened Wrappers

  datatype Milestone = Milestone(status: string)

  datatype Project = Project(status: string, milestones: seq<Milestone>)

  /** One fragment of the completion summary. */
  datatype CompletionPart = NoMilestones | AllCompleted | CompletionPieChart(done: nat, total: nat)

  datatype Overview = Overview(status: string, completion: seq<CompletionPart>)

  /**
   * `milestones.filter((m) => m.status === status)`: every milestone with the
   * status, as often as it occurs, and nothing else.
   */
  function Filter(ms: seq<Milestone>, status: string): (r: seq<Milestone>)
    ensures forall i :: 0 <= i < |r| ==> r[i].status == status
    ensures forall m :: multiset(r)[m] == (if m.status == status then multiset(ms)[m] else 0)
    ensures |r| == multiset(ms)[Milestone(status)]
  {
    if |ms| == 0 then []
    else
      assert ms == [ms[0]] + ms[1..];
      if ms[0].status == status then [ms[0]] + Filter(ms[1..], status)
      else Filter(ms[1..], status)
  }

  /** The milestones that are neither pending nor done. */
  function Others(ms: seq<Milestone>): seq<Milestone> {
    if |ms| == 0 then []
    else if ms[0].status != "pending" && ms[0].status != "done" then [ms[0]] + Others(ms[1..])
    else Others(ms[1..])
  }

  /** `pending.length`: how many of the project's milestones are pending. */
  function PendingCount(p: Project): (n: nat)
    ensures n == multiset(p.milestones)[Milestone("pending")]
  {
    |Filter(p.milestones, "pending")|
  }

  /** `done.length`: how many of the project's milestones are done. */
  function DoneCount(p: Project): (n: nat)
    ensures n == multiset(p.milestones)[Milestone("done")]
  {
    |Filter(p.milestones, "done")|
  }

  /** Every milestone is counted as pending, as done, or as neither, exactly once. */
  lemma {:induction false} MilestonesPartitioned(ms: seq<Milestone>)
    ensures |Filter(ms, "pending")| + |Filter(ms, "done")| + |Others(ms)| == |ms|
  {
    if |ms| > 0 {
      MilestonesPartitioned(ms[1..]);
    }
  }

  /** `total` leaves out exactly the milestones that are neither pending nor done. */
  lemma TotalExcludesOtherStatuses(p: Project)
    ensures PendingCount(p) + DoneCount(p) == |p.milestones| - |Others(p.milestones)|
    ensures PendingCount(p) + DoneCount(p) == |p.milestones| <==> Others(p.milestones) == []
  {
    MilestonesPartitioned(p.milestones);
  }

  /** The three guarded fragments `Completion` renders, in order. */
  function CompletionParts(pending: nat, done: nat): (parts: seq<CompletionPart>)
    ensures |parts| == 1
    ensures parts[0] == NoMilestones <==> pending == 0 && done == 0
    ensures parts[0] == AllCompleted <==> pending == 0 && done > 0
    ensures parts[0].CompletionPieChart? <==> pending > 0
    ensures parts[0].CompletionPieChart? ==>
              parts[0].done == done && parts[0].total == pending + done && 0 <= parts[0].done < parts[0].total
  {
    (if pending == 0 && done == 0 then [NoMilestones] else [])
    + (if pending == 0 && done > 0 then [AllCompleted] else [])
    + (if pending > 0 then [CompletionPieChart(done, pending + done)] else [])
  }

  /** `Completion`: the display chosen from how many milestones are pending and how many are done. */
  function Completion(p: Project): (parts: seq<CompletionPart>)
    ensures parts == CompletionParts(multiset(p.milestones)[Milestone("pending")],
                                     multiset(p.milestones)[Milestone("done")])
  {
    var pending := Filter(p.milestones, "pending");
    var done := Filter(p.milestones, "done");
    CompletionParts(|pending|, |done|)
  }

  /** `StatusOverview`: nothing for a closed project. */
  function StatusOverview(p: Project): (o: Option<Overview>)
    ensures o.None? <==> p.status == "closed"
    ensures o.Some? ==> o.value.status == p.status && o.value.completion == Completion(p)
  {
    if p.status == "closed" then None else Some(Overview(p.status, Completion(p)))
  }

  // ---------------------------------------------------------------------
  // The pie chart's caption

  function DigitChar(d: nat): (c: char)
    requires d < 10
    ensures '0' <= c <= '9' && c as int - '0' as int == d
  {
    ('0' as int + d) as char
  }

  /** How a number renders as text: decimal digits, most significant first. */
  function Decimal(n: nat): (s: string)
    ensures |s| >= 1
    ensures forall i :: 0 <= i < |s| ==> '0' <= s[i] <= '9'
    ensures n > 0 ==> s[0] != '0'
  {
    if n < 10 then [DigitChar(n)] else Decimal(n / 10) + [DigitChar(n % 10)]
  }

  /** The value of a string of decimal digits. */
  function DecimalValue(s: string): nat
    requires forall i :: 0 <= i < |s| ==> '0' <= s[i] <= '9'
  {
    if |s| == 0 then 0 else DecimalValue(s[..|s| - 1]) * 10 + (s[|s| - 1] as int - '0' as int)
  }

  lemma {:induction false} DecimalRoundTrip(n: nat)
    ensures DecimalValue(Decimal(n)) == n
  {
    if n >= 10 {
      DecimalRoundTrip(n / 10);
      var s := Decimal(n);
      assert s[..|s| - 1] == Decimal(n / 10);
    }
  }

  const CaptionSuffix: string := " milestones completed"

  /** `CompletionPieChart`'s caption: "{done}/{total} milestones completed". */
  function PieCaption(done: nat, total: nat): (r: string)
    ensures |r| > |Decimal(done)| && r[..|Decimal(done)|] == Decimal(done) && r[|Decimal(done)|] == '/'
    ensures |r| >= |CaptionSuffix| && r[|r| - |CaptionSuffix|..] == CaptionSuffix
  {
    Decimal(done) + "/" + Decimal(total) + CaptionSuffix
  }

  predicate AllDigits(s: string) {
    forall i :: 0 <= i < |s| ==> '0' <= s[i] <= '9'
  }

  /** In digits followed by '/', that '/' is the first one. */
  lemma FirstSlash(a: string, t: string)
    requires AllDigits(a)
    ensures (a + ['/'] + t)[|a|] == '/'
    ensures forall i :: 0 <= i < |a| ==> (a + ['/'] + t)[i] != '/'
  {
  }

  /** A string of digits followed by '/' can be split at the '/' in one way only. */
  lemma SplitAtSlash(a1: string, t1: string, a2: string, t2: string)
    requires AllDigits(a1) && AllDigits(a2)
    requires a1 + ['/'] + t1 == a2 + ['/'] + t2
    ensures a1 == a2 && t1 == t2
  {
    var c := a1 + ['/'] + t1;
    FirstSlash(a1, t1);
    FirstSlash(a2, t2);
    assert |a1| == |a2|;
    assert a1 == c[..|a1|] == a2;
    assert t1 == c[|a1| + 1..] == t2;
  }

  /** The caption is the done count's digits, a '/', and the rest. */
  lemma PieCaptionShape(done: nat, total: nat)
    ensures PieCaption(done, total) == Decimal(done) + ['/'] + (Decimal(total) + CaptionSuffix)
  {
  }

  /** Equal texts with the same suffix have equal prefixes. */
  lemma DropSuffix(b1: string, b2: string, suffix: string)
    requires b1 + suffix == b2 + suffix
    ensures b1 == b2
  {
    assert |b1| == |b2|;
    assert b1 == (b1 + suffix)[..|b1|];
    assert b2 == (b2 + suffix)[..|b2|];
  }

  /** The caption names the counts unambiguously: two captions are equal only for equal counts. */
  lemma PieCaptionDeterminesCounts(done1: nat, total1: nat, done2: nat, total2: nat)
    requires PieCaption(done1, total1) == PieCaption(done2, total2)
    ensures done1 == done2 && total1 == total2
  {
    PieCaptionShape(done1, total1);
    PieCaptionShape(done2, total2);
    SplitAtSlash(Decimal(done1), Decimal(total1) + CaptionSuffix, Decimal(done2), Decimal(total2) + CaptionSuffix);
    DropSuffix(Decimal(total1), Decimal(total2), CaptionSuffix);
    DecimalRoundTrip(done1);
    DecimalRoundTrip(done2);
    DecimalRoundTrip(total1);
    DecimalRoundTrip(total2);
  }
}
