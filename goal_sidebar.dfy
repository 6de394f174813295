/**
 * The goal page's sidebar: which sections it shows for a goal, in which
 * mode, and the actions that move a person between champion and reviewer.
 * Each section is a function of the page state.
 *
 * `isOverdue` is a helper whose code is not part of this model and is passed
 * in; the humanized overdue duration is represented by the due date it is
 * computed from.
 */
module GoalSidebar {
  import opened Wrappers
  import DateDisplayField

  type Timestamp = DateDisplayField.Timestamp

  datatype Person = Person(id: string, fullName: string)

  /** Route targets, by what they point at. */
  datatype Link = GoalLink(goalId: string) | CheckInLink(checkInId: string)

  datatype ParentGoal = ParentGoal(link: Link, name: string)

  /**
   * A check-in as the goal page receives it. `date` and `content` keep the
   * raw timestamp text and message: parsing them is not modelled.
   */
  datatype CheckIn = CheckIn(
    id: string, author: Person, date: string, link: Link, content: string, commentCount: int, status: string)

  datatype Retrospective = Retrospective(link: string, content: string, author: Person)

  /** The parts of the goal page state the sidebar reads. */
  datatype State = State(
    canEdit: bool,
    closedAt: Option<Timestamp>,
    dueDate: Option<Timestamp>,
    state: string,
    status: string,
    parentGoal: Option<ParentGoal>,
    champion: Option<Person>,
    reviewer: Option<Person>,
    checkIns: seq<CheckIn>,
    retrospective: Option<Retrospective>)

  /** Who is champion and who is reviewer. */
  datatype Assignment = Assignment(champion: Option<Person>, reviewer: Option<Person>)

  /** The overdue warning box, showing how long ago `dueDate` passed. */
  datatype OverdueWarningBox = OverdueWarningBox(dueDate: Timestamp)

  /** The "Due Date" section: the date field's properties and the warning below it. */
  datatype DueDateSection = DueDateSection(field: DateDisplayField.Props, warning: Option<OverdueWarningBox>)

  /** The "Parent Goal" section. */
  datatype ParentSection = CompanyWideGoal | ParentGoalLink(link: Link, name: string)

  /** The "Last Check-In" card: the check-in and its border colour class. */
  datatype LastCheckInCard = LastCheckInCard(checkIn: CheckIn, borderColor: string)

  /** The retrospective card, or the pattern match's failure on an unknown status. */
  datatype RetrospectiveView =
    | NoRetrospective
    | RetrospectiveCard(retrospective: Retrospective, borderColor: string)
    | UnmatchedStatus(status: string)

  predicate IsClosed(s: State) {
    s.state == "closed"
  }

  /** `OverdueWarning`: shown for an open goal whose due date has passed. */
  function OverdueWarning(s: State, isOverdue: Timestamp -> bool): (w: Option<OverdueWarningBox>)
    ensures w.Some? <==> !IsClosed(s) && s.dueDate.Some? && isOverdue(s.dueDate.value)
    ensures w.Some? ==> w.value.dueDate == s.dueDate.value
  {
    if IsClosed(s) then None
    else if s.dueDate.None? then None
    else if !isOverdue(s.dueDate.value) then None
    else Some(OverdueWarningBox(s.dueDate.value))
  }

  /** `DueDate`: readonly unless the user can edit an unclosed goal; the overdue style only before closing. */
  function DueDate(s: State, isOverdue: Timestamp -> bool): (d: DueDateSection)
    ensures d.field.date == s.dueDate
    ensures d.field.readonly <==> !s.canEdit || s.closedAt.Some?
    ensures d.field.showOverdueWarning <==> s.closedAt.None?
    ensures d.warning == OverdueWarning(s, isOverdue)
  {
    var field := DateDisplayField.Defaults(s.dueDate).(
      readonly := !s.canEdit || s.closedAt.Some?,
      showOverdueWarning := s.closedAt.None?);
    DueDateSection(field, OverdueWarning(s, isOverdue))
  }

  /** `CompletedOn`: only for a goal with a closing date, shown readonly and never as overdue. */
  function CompletedOn(s: State): (f: Option<DateDisplayField.Props>)
    ensures f.Some? <==> s.closedAt.Some?
    ensures f.Some? ==> f.value.date == s.closedAt && f.value.readonly && !f.value.showOverdueWarning
  {
    if s.closedAt.None? then None
    else Some(DateDisplayField.Defaults(s.closedAt).(readonly := true, showOverdueWarning := false))
  }

  /** `ParentGoal`: the company-wide state without a parent, the parent's link otherwise. */
  function ParentGoalSection(s: State): (p: ParentSection)
    ensures p.CompanyWideGoal? <==> s.parentGoal.None?
    ensures p.ParentGoalLink? ==> p.link == s.parentGoal.value.link && p.name == s.parentGoal.value.name
  {
    match s.parentGoal
    case None => CompanyWideGoal
    case Some(g) => ParentGoalLink(g.link, g.name)
  }

  /** "Assign as reviewer" on the champion: the champion becomes reviewer and the champion slot empties. */
  function AssignAsReviewer(a: Assignment): (r: Assignment)
    ensures r.champion.None? && r.reviewer == a.champion
  {
    Assignment(None, a.champion)
  }

  /** "Assign as champion" on the reviewer: the reviewer becomes champion and the reviewer slot empties. */
  function AssignAsChampion(a: Assignment): (r: Assignment)
    ensures r.reviewer.None? && r.champion == a.reviewer
  {
    Assignment(a.reviewer, None)
  }

  /**
   * Moving the champion to reviewer and back restores the champion, and
   * either move leaves nobody both champion and reviewer.
   */
  lemma SwapRoundTrip(a: Assignment)
    ensures AssignAsChampion(AssignAsReviewer(a)) == Assignment(a.champion, None)
    ensures AssignAsReviewer(AssignAsChampion(a)) == Assignment(None, a.reviewer)
    ensures AssignAsReviewer(a).champion != AssignAsReviewer(a).reviewer || a.champion.None?
    ensures AssignAsChampion(a).champion != AssignAsChampion(a).reviewer || a.reviewer.None?
  {
  }

  /** A person field: who is shown, whether it can be changed, and its two empty-state messages. */
  datatype PersonSection = PersonSection(
    person: Option<Person>, readonly: bool, emptyStateMessage: string, emptyStateReadOnlyMessage: string)

  /** `Champion`: editable exactly when the user can edit the goal, closed or not. */
  function ChampionSection(s: State): (p: PersonSection)
    ensures p.person == s.champion && (p.readonly <==> !s.canEdit)
    ensures p.emptyStateMessage == "Set champion" && p.emptyStateReadOnlyMessage == "No champion"
  {
    PersonSection(s.champion, !s.canEdit, "Set champion", "No champion")
  }

  /** `Reviewer`: as `Champion`, for the reviewer. */
  function ReviewerSection(s: State): (p: PersonSection)
    ensures p.person == s.reviewer && (p.readonly <==> !s.canEdit)
    ensures p.emptyStateMessage == "Set reviewer" && p.emptyStateReadOnlyMessage == "No reviewer"
  {
    PersonSection(s.reviewer, !s.canEdit, "Set reviewer", "No reviewer")
  }

  /** The border colour of the last check-in's card. */
  function CheckInBorderColor(status: string): (c: string)
    ensures c == "border-green-500" <==> status == "on_track"
    ensures c == "border-yellow-500" <==> status == "caution" || status == "concern"
    ensures c == "border-red-500" <==> status == "issue"
    ensures c == "" <==> status !in {"on_track", "caution", "concern", "issue"}
  {
    if status == "on_track" then "border-green-500"
    else if status == "caution" || status == "concern" then "border-yellow-500"
    else if status == "issue" then "border-red-500"
    else ""
  }

  /** `LastCheckIn`: the newest check-in's card, unless there is none or the goal is closed. */
  function LastCheckIn(s: State): (c: Option<LastCheckInCard>)
    ensures c.None? <==> |s.checkIns| == 0 || IsClosed(s)
    ensures c.Some? ==> c.value.checkIn == s.checkIns[0]
    ensures c.Some? ==> c.value.borderColor == CheckInBorderColor(s.checkIns[0].status)
  {
    if |s.checkIns| == 0 then None
    else if IsClosed(s) then None
    else Some(LastCheckInCard(s.checkIns[0], CheckInBorderColor(s.checkIns[0].status)))
  }

  /** The retrospective's colour match: the four closing statuses, and no other. */
  function RetrospectiveColor(status: string): (c: Option<string>)
    ensures c.Some? <==> status in {"achieved", "missed", "dropped", "partial"}
    ensures c == Some("border-green-500") <==> status == "achieved"
    ensures c == Some("border-red-500") <==> status == "missed"
    ensures c == Some("border-gray-500") <==> status == "dropped"
    ensures c == Some("border-yellow-500") <==> status == "partial"
  {
    if status == "achieved" then Some("border-green-500")
    else if status == "missed" then Some("border-red-500")
    else if status == "dropped" then Some("border-gray-500")
    else if status == "partial" then Some("border-yellow-500")
    else None
  }

  /** `Retrospective`: a card for a closed goal with a retrospective; an unknown status makes the match throw. */
  function RetrospectiveSection(s: State): (v: RetrospectiveView)
    ensures v.NoRetrospective? <==> !IsClosed(s) || s.retrospective.None?
    ensures v.UnmatchedStatus? <==> IsClosed(s) && s.retrospective.Some? && RetrospectiveColor(s.status).None?
    ensures v.RetrospectiveCard? ==> v.retrospective == s.retrospective.value
                                     && Some(v.borderColor) == RetrospectiveColor(s.status)
  {
    if !IsClosed(s) then NoRetrospective
    else if s.retrospective.None? then NoRetrospective
    else
      match RetrospectiveColor(s.status)
      case None => UnmatchedStatus(s.status)
      case Some(color) => RetrospectiveCard(s.retrospective.value, color)
  }

  /** The whole sidebar, section by section, in the order it is laid out. */
  datatype SidebarView = SidebarView(
    retrospective: RetrospectiveView,
    completedOn: Option<DateDisplayField.Props>,
    lastCheckIn: Option<LastCheckInCard>,
    parentGoal: ParentSection,
    dueDate: DueDateSection,
    champion: PersonSection,
    reviewer: PersonSection)

  /**
   * `Sidebar`: every section computed from the same state, so the sections
   * agree with each other. Neither the last check-in nor the overdue warning
   * ever appears beside a retrospective card or a failed status match; a
   * completion date comes with a readonly due date; and the
   * champion and reviewer fields are editable together or not at all.
   */
  function Sidebar(s: State, isOverdue: Timestamp -> bool): (v: SidebarView)
    ensures v.lastCheckIn.Some? ==> v.retrospective.NoRetrospective?
    ensures v.dueDate.warning.Some? ==> v.retrospective.NoRetrospective?
    ensures v.completedOn.Some? ==> v.dueDate.field.readonly && !v.dueDate.field.showOverdueWarning
    ensures v.champion.readonly == v.reviewer.readonly == !s.canEdit
  {
    SidebarView(RetrospectiveSection(s), CompletedOn(s), LastCheckIn(s), ParentGoalSection(s),
                DueDate(s, isOverdue), ChampionSection(s), ReviewerSection(s))
  }

  /**
   * A goal whose state is "closed" shows no last check-in and no overdue
   * warning. Its retrospective card is shown when it has a retrospective and
   * one of the four closing statuses; any other status makes the match fail.
   */
  lemma ClosedGoalSidebar(s: State, isOverdue: Timestamp -> bool)
    requires IsClosed(s)
    ensures var v := Sidebar(s, isOverdue);
            v.lastCheckIn.None? && v.dueDate.warning.None?
            && (v.retrospective.NoRetrospective? <==> s.retrospective.None?)
            && (v.retrospective.RetrospectiveCard? <==> s.retrospective.Some? && RetrospectiveColor(s.status).Some?)
  {
  }

  /** Distinct closing statuses get distinct retrospective colours. */
  lemma RetrospectiveColorsDistinct(s1: string, s2: string)
    requires RetrospectiveColor(s1).Some? && RetrospectiveColor(s2).Some?
    ensures RetrospectiveColor(s1) == RetrospectiveColor(s2) <==> s1 == s2
  {
  }

  /**
   * A goal with a closing date shows its due date as a plain span, never in
   * the error style, and its completion date likewise, with the closing date
   * formatted.
   */
  lemma ClosedGoalDatesAreInert(s: State, isOverdue: Timestamp -> bool, isCurrentYear: Timestamp -> bool)
    requires s.closedAt.Some?
    ensures var d := DateDisplayField.DateDisplay(DueDate(s, isOverdue).field, isOverdue, isCurrentYear);
            d.DateElem? && d.elem == DateDisplayField.Span && !d.errorStyle
    ensures var d := DateDisplayField.DateDisplay(CompletedOn(s).value, isOverdue, isCurrentYear);
            d.DateElem? && d.elem == DateDisplayField.Span && !d.errorStyle
            && d.text == DateDisplayField.DateText(DateDisplayField.FormatDate(s.closedAt.value, isCurrentYear))
  {
  }

  /**
   * An editable open goal's overdue due date is shown in the error style;
   * the warning box below it appears as well unless the goal's state is
   * already "closed".
   */
  lemma OpenOverdueGoalIsFlagged(s: State, isOverdue: Timestamp -> bool, isCurrentYear: Timestamp -> bool)
    requires s.closedAt.None? && s.canEdit && s.dueDate.Some? && isOverdue(s.dueDate.value)
    ensures var d := DateDisplayField.DateDisplay(DueDate(s, isOverdue).field, isOverdue, isCurrentYear);
            d.DateElem? && d.elem == DateDisplayField.Button && d.errorStyle
    ensures DueDate(s, isOverdue).warning.Some? <==> !IsClosed(s)
  {
  }
}
