/**
 * The goal page's data preparation and its two edit actions. The loader's
 * responses are turned into the page state the goal page component reads:
 * check-ins, the parent goal, the related work items (a tree) and the
 * targets. Renaming the goal and editing its description call the remote
 * API and, on success, invalidate the page's cache entry.
 *
 * `assertPresent` throws when its argument is null or undefined; a throw is
 * modelled as `None` or `Err`. The API's outcome is a parameter.
 */
module GoalV3Page {
  import opened Wrappers
  import GoalSidebar

  type Person = GoalSidebar.Person
  type CheckIn = GoalSidebar.CheckIn

  // ---------------------------------------------------------------------
  // Cache key

  const CacheKeyPrefix: string := "v7-GoalPage.goal-"

  /** `pageCacheKey` */
  function PageCacheKey(id: string): (key: string)
    ensures |key| == |CacheKeyPrefix| + |id|
    ensures key[..|CacheKeyPrefix|] == CacheKeyPrefix
    ensures key[|CacheKeyPrefix|..] == id
  {
    CacheKeyPrefix + id
  }

  /** Distinct goals get distinct cache keys, so invalidating one never touches another. */
  lemma PageCacheKeyInjective(id1: string, id2: string)
    ensures PageCacheKey(id1) == PageCacheKey(id2) <==> id1 == id2
  {
    if PageCacheKey(id1) == PageCacheKey(id2) {
      assert PageCacheKey(id1)[|CacheKeyPrefix|..] == id1;
      assert PageCacheKey(id2)[|CacheKeyPrefix|..] == id2;
    }
  }

  // ---------------------------------------------------------------------
  // Blank names

  /** The characters `String.prototype.trim` removes: white space and line terminators. */
  predicate IsTrimmable(c: char) {
    || c == '\t' || c == '\n' || c == '\U{B}' || c == '\U{C}' || c == '\r' || c == ' '
    || c == '\U{A0}' || c == '\U{1680}' || '\U{2000}' <= c <= '\U{200A}'
    || c == '\U{2028}' || c == '\U{2029}' || c == '\U{202F}' || c == '\U{205F}'
    || c == '\U{3000}' || c == '\U{FEFF}'
  }

  predicate AllTrimmable(s: string) {
    forall i :: 0 <= i < |s| ==> IsTrimmable(s[i])
  }

  /** How many white-space characters open `s`. */
  function LeadingSpace(s: string): (n: nat)
    ensures n <= |s|
    ensures forall k :: 0 <= k < n ==> IsTrimmable(s[k])
    ensures n < |s| ==> !IsTrimmable(s[n])
  {
    if |s| > 0 && IsTrimmable(s[0]) then
      var n := LeadingSpace(s[1..]);
      assert forall k :: 1 <= k < n + 1 ==> s[k] == s[1..][k - 1];
      n + 1
    else 0
  }

  /** How many white-space characters close `s`. */
  function TrailingSpace(s: string): (n: nat)
    ensures n <= |s|
    ensures forall k :: |s| - n <= k < |s| ==> IsTrimmable(s[k])
    ensures n < |s| ==> !IsTrimmable(s[|s| - n - 1])
  {
    if |s| > 0 && IsTrimmable(s[|s| - 1]) then
      var n := TrailingSpace(s[..|s| - 1]);
      assert forall k :: |s| - 1 - n <= k < |s| - 1 ==> s[k] == s[..|s| - 1][k];
      n + 1
    else 0
  }

  /**
   * Leading white space removed: what is left is a suffix of `s`, only white
   * space was dropped, and it is empty exactly when `s` is all white space.
   */
  function TrimStart(s: string): (r: string)
    ensures |r| <= |s| && r == s[|s| - |r|..]
    ensures AllTrimmable(s[..|s| - |r|])
    ensures r != [] ==> !IsTrimmable(r[0])
    ensures r == [] <==> AllTrimmable(s)
  {
    s[LeadingSpace(s)..]
  }

  /**
   * Trailing white space removed: what is left is a prefix of `s`, only white
   * space was dropped, and it is empty exactly when `s` is all white space.
   */
  function TrimEnd(s: string): (r: string)
    ensures |r| <= |s| && r == s[..|r|]
    ensures AllTrimmable(s[|r|..])
    ensures r != [] ==> !IsTrimmable(r[|r| - 1])
    ensures r == [] <==> AllTrimmable(s)
  {
    s[..|s| - TrailingSpace(s)]
  }

  /**
   * `name.trim()`: the middle part of the name that starts where the leading
   * white space ends, with only white space dropped around it and none left
   * at either end.
   */
  function Trim(s: string): (r: string)
    ensures var i := LeadingSpace(s);
            i + |r| <= |s| && r == s[i..i + |r|] && AllTrimmable(s[..i]) && AllTrimmable(s[i + |r|..])
    ensures r != [] ==> !IsTrimmable(r[0]) && !IsTrimmable(r[|r| - 1])
  {
    TrimEnd(TrimStart(s))
  }

  /** A name is blank after trimming exactly when every character in it is white space. */
  lemma BlankIffAllWhitespace(s: string)
    ensures Trim(s) == "" <==> AllTrimmable(s)
  {
    var i := LeadingSpace(s);
    if Trim(s) == "" {
      assert s == s[..i] + s[i..];
    }
  }

  // ---------------------------------------------------------------------
  // Edit actions

  /** A call made to the remote API. `description` is the serialized description. */
  datatype ApiCall = UpdateNameCall(goalId: string, name: string) | UpdateDescriptionCall(goalId: string, description: string)

  /** The goal page's edit actions, with the API calls made and the cache keys invalidated. */
  class GoalPageSession {
    const goalId: string
    var apiCalls: seq<ApiCall>
    var invalidatedKeys: seq<string>

    constructor (goalId: string)
      ensures this.goalId == goalId && apiCalls == [] && invalidatedKeys == []
    {
      this.goalId := goalId;
      apiCalls := [];
      invalidatedKeys := [];
    }

    /**
     * `updateGoalName`: a blank name resolves false with no API call;
     * otherwise the name is sent as given, and the result is true exactly
     * when the call succeeds, after the goal's cache key is invalidated.
     */
    method UpdateGoalName(name: string, apiSucceeds: bool) returns (ok: bool)
      modifies this`apiCalls, this`invalidatedKeys
      ensures Trim(name) == "" ==> !ok && apiCalls == old(apiCalls) && invalidatedKeys == old(invalidatedKeys)
      ensures Trim(name) != "" ==> ok == apiSucceeds && apiCalls == old(apiCalls) + [UpdateNameCall(goalId, name)]
      ensures invalidatedKeys == old(invalidatedKeys) + (if ok then [PageCacheKey(goalId)] else [])
    {
      if Trim(name) == "" {
        return false;
      }
      apiCalls := apiCalls + [UpdateNameCall(goalId, name)];
      if apiSucceeds {
        invalidatedKeys := invalidatedKeys + [PageCacheKey(goalId)];
        ok := true;
      } else {
        ok := false;
      }
    }

    /** `updateDescription`: as `updateGoalName`, without the blank check. */
    method UpdateDescription(description: string, apiSucceeds: bool) returns (ok: bool)
      modifies this`apiCalls, this`invalidatedKeys
      ensures ok == apiSucceeds
      ensures apiCalls == old(apiCalls) + [UpdateDescriptionCall(goalId, description)]
      ensures invalidatedKeys == old(invalidatedKeys) + (if ok then [PageCacheKey(goalId)] else [])
    {
      apiCalls := apiCalls + [UpdateDescriptionCall(goalId, description)];
      if apiSucceeds {
        invalidatedKeys := invalidatedKeys + [PageCacheKey(goalId)];
        ok := true;
      } else {
        ok := false;
      }
    }
  }

  // ---------------------------------------------------------------------
  // Parent goal

  datatype Goal = Goal(id: string, name: string)

  /** `prepareParentGoal` */
  function PrepareParentGoal(g: Option<Goal>): (p: Option<GoalSidebar.ParentGoal>)
    ensures p.None? <==> g.None?
    ensures p.Some? ==> p.value.link == GoalSidebar.GoalLink(g.value.id) && p.value.name == g.value.name
  {
    match g
    case None => None
    case Some(goal) => Some(GoalSidebar.ParentGoal(GoalSidebar.GoalLink(goal.id), goal.name))
  }

  // ---------------------------------------------------------------------
  // Check-ins

  /** The goal check-in an activity carries. */
  datatype Update = Update(id: Option<string>, insertedAt: string, message: string, status: string)

  datatype Activity = Activity(author: Option<Person>, update: Option<Update>)

  const CommentCount: int := 4

  /** One activity's check-in entry, or the message of the first presence assertion it fails. */
  function CheckInEntry(a: Activity): (r: Result<CheckIn, string>)
    ensures a.author.None? ==> r == Err("author must be present in activity")
    ensures a.author.Some? && a.update.None? ==> r == Err("update must be present in activity content")
    ensures a.author.Some? && a.update.Some? && a.update.value.id.None? ==>
              r == Err("update.id must be present in activity content")
    ensures r.Ok? <==> a.author.Some? && a.update.Some? && a.update.value.id.Some?
    ensures r.Ok? ==> var u := a.update.value;
              && r.value.id == u.id.value && r.value.status == u.status && r.value.author == a.author.value
              && r.value.link == GoalSidebar.CheckInLink(u.id.value) && r.value.date == u.insertedAt
              && r.value.content == u.message && r.value.commentCount == CommentCount
  {
    if a.author.None? then Err("author must be present in activity")
    else if a.update.None? then Err("update must be present in activity content")
    else if a.update.value.id.None? then Err("update.id must be present in activity content")
    else
      var u := a.update.value;
      Ok(GoalSidebar.CheckIn(
        u.id.value, a.author.value, u.insertedAt, GoalSidebar.CheckInLink(u.id.value), u.message, CommentCount, u.status))
  }

  /** The first failing activity of the tail, behind a succeeding head, is the first failing one of the whole. */
  lemma FirstFailureShifts(activities: seq<Activity>, e: string)
    requires |activities| > 0 && CheckInEntry(activities[0]).Ok?
    requires exists k :: 0 <= k < |activities[1..]| && CheckInEntry(activities[1..][k]) == Err(e)
                         && forall j :: 0 <= j < k ==> CheckInEntry(activities[1..][j]).Ok?
    ensures exists i :: 0 <= i < |activities| && CheckInEntry(activities[i]) == Err(e)
                        && forall j :: 0 <= j < i ==> CheckInEntry(activities[j]).Ok?
  {
    var k :| 0 <= k < |activities[1..]| && CheckInEntry(activities[1..][k]) == Err(e)
             && forall j :: 0 <= j < k ==> CheckInEntry(activities[1..][j]).Ok?;
    assert forall j :: 1 <= j < k + 1 ==> activities[j] == activities[1..][j - 1];
    assert CheckInEntry(activities[k + 1]) == Err(e);
  }

  /** `prepareCheckIns`: one entry per activity, in order, or the first failing activity's error. */
  function PrepareCheckIns(activities: seq<Activity>): (r: Result<seq<CheckIn>, string>)
    ensures r.Ok? <==> forall i :: 0 <= i < |activities| ==> CheckInEntry(activities[i]).Ok?
    ensures r.Ok? ==> |r.value| == |activities|
    ensures r.Ok? ==> forall i :: 0 <= i < |activities| ==> Ok(r.value[i]) == CheckInEntry(activities[i])
    ensures r.Err? ==> exists i :: 0 <= i < |activities| && CheckInEntry(activities[i]) == Err(r.error)
                                   && forall j :: 0 <= j < i ==> CheckInEntry(activities[j]).Ok?
  {
    if |activities| == 0 then Ok([])
    else
      match CheckInEntry(activities[0])
      case Err(e) => Err(e)
      case Ok(c) =>
        match PrepareCheckIns(activities[1..])
        case Err(e) =>
          FirstFailureShifts(activities, e);
          Err(e)
        case Ok(rest) => Ok([c] + rest)
  }

  // ---------------------------------------------------------------------
  // Related work items

  /** A work map item as loaded: `assignees` may be missing. */
  datatype WorkMapItem = WorkMapItem(
    id: string, name: string, status: string, assignees: Option<seq<Person>>, children: seq<WorkMapItem>)

  /** A work map item as the goal page reads it: `assignees` is required. */
  datatype RelatedItem = RelatedItem(
    id: string, name: string, status: string, assignees: seq<Person>, children: seq<RelatedItem>)

  /** Every item of the tree, at every depth, has its assignees. */
  predicate AllAssigned(items: seq<WorkMapItem>)
    decreases items
  {
    forall i :: 0 <= i < |items| ==> items[i].assignees.Some? && AllAssigned(items[i].children)
  }

  /** The loaded form of prepared items: what `prepareWorkMapData` keeps of its input. */
  function Unprepared(items: seq<RelatedItem>): (r: seq<WorkMapItem>)
    decreases items
  {
    if |items| == 0 then []
    else
      var item := items[0];
      [WorkMapItem(item.id, item.name, item.status, Some(item.assignees), Unprepared(item.children))]
      + Unprepared(items[1..])
  }

  /**
   * `prepareWorkMapData`: defined exactly when every item at every depth has
   * its assignees, and then it keeps the tree: same items, same order, same
   * children at every level.
   */
  function PrepareWorkMapData(items: seq<WorkMapItem>): (r: Option<seq<RelatedItem>>)
    ensures r.Some? <==> AllAssigned(items)
    ensures r.Some? ==> |r.value| == |items| && Unprepared(r.value) == items
    decreases items
  {
    if |items| == 0 then Some([])
    else
      var item := items[0];
      if item.assignees.None? then None
      else
        match PrepareWorkMapData(item.children)
        case None => None
        case Some(children) =>
          match PrepareWorkMapData(items[1..])
          case None =>
            assert !AllAssigned(items[1..]);
            None
          case Some(rest) =>
            var head := RelatedItem(item.id, item.name, item.status, item.assignees.value, children);
            assert ([head] + rest)[1..] == rest;
            assert forall i :: 1 <= i < |items| ==> items[i] == items[1..][i - 1];
            Some([head] + rest)
  }

  // ---------------------------------------------------------------------
  // Targets

  /** A target as loaded; every field may be missing. Numbers are kept as reals. */
  datatype Target = Target(
    id: Option<string>, name: Option<string>, from: Option<real>, to: Option<real>,
    value: Option<real>, unit: Option<string>, index: Option<int>)

  datatype TargetMode = ViewMode

  /** A target as the goal page reads it. */
  datatype PreparedTarget = PreparedTarget(
    name: string, id: string, from: real, to: real, value: real, unit: string, index: int, mode: TargetMode)

  predicate Complete(t: Target) {
    t.id.Some? && t.name.Some? && t.from.Some? && t.to.Some? && t.value.Some? && t.unit.Some? && t.index.Some?
  }

  /** One target's entry: its seven fields copied, in view mode. */
  function PrepareTarget(t: Target): (r: Option<PreparedTarget>)
    ensures r.Some? <==> Complete(t)
    ensures r.Some? ==> && r.value.id == t.id.value && r.value.name == t.name.value
                        && r.value.from == t.from.value && r.value.to == t.to.value
                        && r.value.value == t.value.value && r.value.unit == t.unit.value
                        && r.value.index == t.index.value && r.value.mode == ViewMode
  {
    if Complete(t) then
      Some(PreparedTarget(t.name.value, t.id.value, t.from.value, t.to.value, t.value.value, t.unit.value,
                          t.index.value, ViewMode))
    else None
  }

  function PrepareTargetList(targets: seq<Target>): (r: Option<seq<PreparedTarget>>)
    ensures r.Some? <==> forall i :: 0 <= i < |targets| ==> Complete(targets[i])
    ensures r.Some? ==> |r.value| == |targets|
    ensures r.Some? ==> forall i :: 0 <= i < |targets| ==> Some(r.value[i]) == PrepareTarget(targets[i])
  {
    if |targets| == 0 then Some([])
    else
      match PrepareTarget(targets[0])
      case None => None
      case Some(t) =>
        match PrepareTargetList(targets[1..])
        case None =>
          assert exists i :: 1 <= i < |targets| && !Complete(targets[i]) by {
            var k :| 0 <= k < |targets[1..]| && !Complete(targets[1..][k]);
            assert targets[k + 1] == targets[1..][k];
          }
          None
        case Some(rest) => Some([t] + rest)
  }

  /** `prepareTargets`: no targets at all give an empty list; otherwise every target is mapped in order. */
  function PrepareTargets(targets: Option<seq<Target>>): (r: Option<seq<PreparedTarget>>)
    ensures targets.None? ==> r == Some([])
    ensures targets.Some? ==> r == PrepareTargetList(targets.value)
  {
    match targets
    case None => Some([])
    case Some(ts) => PrepareTargetList(ts)
  }
}
