/**
 * The date field: a date shown as text, which when editable opens a popover
 * with a date picker. The field asks its owner to change the date through
 * `setDate`, and only when the timestamp really changes.
 *
 * A date is represented by its `getTime()` value. `isOverdue` and
 * `isCurrentYear` are helpers whose code is not part of this model; they are
 * passed in as functions. Locale formatting is represented by which of the
 * two formats is chosen.
 */
module DateDisplayField {
  import opened Wrappers

  /** A date, by its millisecond timestamp. */
  type Timestamp = int

  datatype Variant = Inline | FormField

  /** The field's properties, after defaults are applied. */
  datatype Props = Props(
    date: Option<Timestamp>,
    readonly: bool,
    showOverdueWarning: bool,
    showEmptyStateAsButton: bool,
    showIcon: bool,
    emptyStateText: string,
    emptyStateReadonlyText: string,
    variant: Variant)

  /** The properties a caller gets by passing only `date`. */
  function Defaults(date: Option<Timestamp>): (p: Props)
    ensures p.date == date && !p.readonly && p.showOverdueWarning && !p.showEmptyStateAsButton && p.showIcon
    ensures p.emptyStateText == "Set date" && p.emptyStateReadonlyText == "No date set" && p.variant == Inline
  {
    Props(date, false, true, false, true, "Set date", "No date set", Inline)
  }

  /** `toLocaleDateString` with month and day, and with the year or without it. */
  datatype FormattedDate = MonthDay(date: Timestamp) | MonthDayYear(date: Timestamp)

  /** The text inside the display element. */
  datatype Text = DateText(formatted: FormattedDate) | Plain(s: string)

  /** The element `DateDisplay` renders the text into. */
  datatype Elem = Span | Button

  /** The empty-state button: its caption and variant. */
  datatype EmptyButton = EmptyButton(caption: string, variant: Variant)

  /** What `DateDisplay` renders: the empty-state button (or nothing), or the date element. */
  datatype Display =
    | EmptyState(button: Option<EmptyButton>)
    | DateElem(elem: Elem, text: Text, errorStyle: bool, dimmed: bool, icon: bool)

  /** The picker in the popover: the selected date and whether "Clear" is offered. */
  datatype Picker = Picker(selected: Option<Timestamp>, showClear: bool)

  /** What the whole field renders: the display alone, or the display as a popover trigger. */
  datatype FieldView =
    | DisplayOnly(display: Display)
    | WithPopover(display: Display, open: bool, picker: Picker)

  /** `formatDate`: the year is shown exactly for dates outside the current year. */
  function FormatDate(date: Timestamp, isCurrentYear: Timestamp -> bool): (f: FormattedDate)
    ensures f.date == date
    ensures f.MonthDayYear? <==> !isCurrentYear(date)
  {
    if isCurrentYear(date) then MonthDay(date) else MonthDayYear(date)
  }

  /** `EmptyStateButton`: nothing when readonly, the button otherwise. */
  function EmptyStateButton(readonly: bool, emptyStateText: string, variant: Variant): (b: Option<EmptyButton>)
    ensures b.None? <==> readonly
    ensures b.Some? ==> b.value.caption == emptyStateText && b.value.variant == variant
  {
    if readonly then None else Some(EmptyButton(emptyStateText, variant))
  }

  /** `DateDisplay` */
  function DateDisplay(p: Props, isOverdue: Timestamp -> bool, isCurrentYear: Timestamp -> bool): (d: Display)
    ensures d.EmptyState? <==> p.date.None? && p.showEmptyStateAsButton
    ensures d.EmptyState? ==> d.button == EmptyStateButton(p.readonly, p.emptyStateText, p.variant)
    ensures d.DateElem? ==> (d.elem == Span <==> p.readonly)
    ensures d.DateElem? ==> (d.errorStyle <==> p.date.Some? && isOverdue(p.date.value) && p.showOverdueWarning)
    ensures d.DateElem? ==> (d.dimmed <==> p.date.None?) && (d.icon <==> p.showIcon)
    ensures d.DateElem? && p.date.Some? ==> d.text == DateText(FormatDate(p.date.value, isCurrentYear))
    ensures d.DateElem? && p.date.None? && p.readonly ==> d.text == Plain(p.emptyStateReadonlyText)
    ensures d.DateElem? && p.date.None? && !p.readonly ==> d.text == Plain(p.emptyStateText)
  {
    if p.date.None? && p.showEmptyStateAsButton then
      EmptyState(EmptyStateButton(p.readonly, p.emptyStateText, p.variant))
    else
      var elem := if p.readonly then Span else Button;
      var overdue := p.date.Some? && isOverdue(p.date.value);
      var text :=
        if p.date.Some? then DateText(FormatDate(p.date.value, isCurrentYear))
        else if p.readonly then Plain(p.emptyStateReadonlyText)
        else Plain(p.emptyStateText);
      DateElem(elem, text, overdue && p.showOverdueWarning, p.date.None?, p.showIcon)
  }

  /** The `setDate` call a picker change leads to, if any: only a different timestamp is passed on. */
  function ChangeRequest(current: Option<Timestamp>, newDate: Option<Timestamp>): (r: seq<Option<Timestamp>>)
    ensures |r| <= 1
    ensures r == [] <==> current == newDate
    ensures forall i :: 0 <= i < |r| ==> r[i] == newDate
  {
    if current != newDate then [newDate] else []
  }

  /**
   * One rendering of the field: its properties, the popover's `isOpen`
   * state, and the `setDate` calls made so far.
   */
  class DateField {
    const props: Props
    var isOpen: bool
    var dateRequests: seq<Option<Timestamp>>

    constructor (props: Props)
      ensures this.props == props && !isOpen && dateRequests == []
    {
      this.props := props;
      isOpen := false;
      dateRequests := [];
    }

    /** What the field renders: in readonly mode the display alone, otherwise a popover with the picker. */
    function Render(isOverdue: Timestamp -> bool, isCurrentYear: Timestamp -> bool): (v: FieldView)
      reads this
      ensures v.display == DateDisplay(props, isOverdue, isCurrentYear)
      ensures v.DisplayOnly? <==> props.readonly
      ensures v.WithPopover? ==> v.open == isOpen && v.picker == Picker(props.date, props.date.Some?)
    {
      var display := DateDisplay(props, isOverdue, isCurrentYear);
      if props.readonly then DisplayOnly(display)
      else WithPopover(display, isOpen, Picker(props.date, props.date.Some?))
    }

    /** `handleChange`: call `setDate` only when the timestamp differs. */
    method HandleChange(newDate: Option<Timestamp>)
      modifies this`dateRequests
      ensures dateRequests == old(dateRequests) + ChangeRequest(props.date, newDate)
    {
      if props.date != newDate {
        dateRequests := dateRequests + [newDate];
      }
    }

    /** `clearDate`: request `null` when a date is set, and close the popover. */
    method ClearDate()
      modifies this`dateRequests, this`isOpen
      ensures dateRequests == old(dateRequests) + (if props.date.Some? then [None] else [])
      ensures !isOpen
    {
      HandleChange(None);
      isOpen := false;
    }

    /** The popover's `onOpenChange`. */
    method OnOpenChange(open: bool)
      modifies this`isOpen
      ensures isOpen == open && dateRequests == old(dateRequests)
    {
      isOpen := open;
    }
  }
}
