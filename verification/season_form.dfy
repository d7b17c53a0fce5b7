/** The add/edit season form of the AGC ledger: the initial values, the
    field rules (an end date strictly after the start date), and the add
    and update requests it sends. */
module SeasonForm {
  import opened Common
  import opened Types

  /** A day as a date input yields it. */
  datatype CalendarDate = CalendarDate(year: int, month: int, day: int)

  /** The form's values. A date input is `None` while empty. */
  datatype SeasonFormInputs = SeasonFormInputs(name: string, startDate: Option<CalendarDate>,
                                               endDate: Option<CalendarDate>, isActive: bool)

  /** A rule a field broke. */
  datatype FieldError = Required | EndNotAfterStart

  /** The broken rule of each field, if any. */
  datatype SeasonFormErrors = SeasonFormErrors(name: Option<FieldError>, startDate: Option<FieldError>,
                                               endDate: Option<FieldError>)

  /** What the form sends: an update of an existing season, or a new AGC
      season with no competitors. Dates are in the API's `dd-MM-yyyy`. */
  datatype SeasonRequest =
    | UpdateSeason(id: int, name: string, startDate: string, endDate: string, isActive: bool)
    | AddSeason(name: string, startDate: string, endDate: string, isActive: bool, tenant: string, competitorIds: seq<int>)

  /** The parent's callbacks, in the order they are called. */
  datatype Callback = OnSeasonSaved | OnClose

  const TENANT: string := "AGC"

  /** A day of the calendar: month 1..12, day 1..31. */
  predicate IsCalendarDate(d: CalendarDate) {
    1 <= d.month <= 12 && 1 <= d.day <= 31
  }

  /** A key that grows with the instant a date input's day starts at; the
      validation compares these. */
  function TimeKey(d: CalendarDate): int {
    (d.year * 12 + d.month - 1) * 31 + d.day - 1
  }

  /** `b` is a later day than `a`, comparing year, then month, then day. */
  predicate LaterDay(b: CalendarDate, a: CalendarDate) {
    b.year > a.year
    || (b.year == a.year && (b.month > a.month || (b.month == a.month && b.day > a.day)))
  }

  /** The end-date rule: the end's instant is strictly after the start's.
      An empty start reads as an invalid date, against which nothing is
      later. */
  function EndAfterStart(start: Option<CalendarDate>, end: CalendarDate): (ok: bool)
    ensures start.None? ==> !ok
    ensures start.Some? ==> (ok <==> TimeKey(end) > TimeKey(start.value))
  {
    start.Some? && TimeKey(end) > TimeKey(start.value)
  }

  /** The field rules: name, start and end are required; the end must be
      after the start. */
  function Validate(f: SeasonFormInputs): (errs: SeasonFormErrors)
    ensures errs.name.None? <==> f.name != ""
    ensures errs.startDate.None? <==> f.startDate.Some?
    ensures errs.endDate.None? <==> f.endDate.Some? && EndAfterStart(f.startDate, f.endDate.value)
    ensures f.endDate.None? ==> errs.endDate == Some(Required)
    ensures f.endDate.Some? && !EndAfterStart(f.startDate, f.endDate.value) ==> errs.endDate == Some(EndNotAfterStart)
  {
    SeasonFormErrors(
      if f.name == "" then Some(Required) else None,
      if f.startDate.None? then Some(Required) else None,
      if f.endDate.None? then Some(Required)
      else if !EndAfterStart(f.startDate, f.endDate.value) then Some(EndNotAfterStart)
      else None)
  }

  predicate IsValid(f: SeasonFormInputs) {
    Validate(f) == SeasonFormErrors(None, None, None)
  }

  /** The values the form opens with: a new season's are blank and active;
      an edited season's come from it, its API dates read back into the
      date inputs by `readApiDate` (an empty API date stays empty). */
  function InitialForm(seasonToEdit: Option<Season>, readApiDate: string -> Option<CalendarDate>): (f: SeasonFormInputs)
    ensures seasonToEdit.None? ==> f == SeasonFormInputs("", None, None, true)
    ensures seasonToEdit.Some? ==> f.name == seasonToEdit.value.name && f.isActive == seasonToEdit.value.isActive
    ensures seasonToEdit.Some? && seasonToEdit.value.startDate == "" ==> f.startDate.None?
    ensures seasonToEdit.Some? && seasonToEdit.value.endDate == "" ==> f.endDate.None?
  {
    match seasonToEdit
    case None => SeasonFormInputs("", None, None, true)
    case Some(s) =>
      SeasonFormInputs(s.name,
                       if s.startDate == "" then None else readApiDate(s.startDate),
                       if s.endDate == "" then None else readApiDate(s.endDate),
                       s.isActive)
  }

  /** The request for a valid form. `toApiDate` renders a date in the API's
      `dd-MM-yyyy`. */
  function BuildRequest(seasonToEdit: Option<Season>, f: SeasonFormInputs, toApiDate: CalendarDate -> string): (r: SeasonRequest)
    requires IsValid(f)
    ensures seasonToEdit.Some? <==> r.UpdateSeason?
    ensures seasonToEdit.Some? ==> r.id == seasonToEdit.value.id
    ensures r.name == f.name && r.isActive == f.isActive
    ensures r.startDate == toApiDate(f.startDate.value) && r.endDate == toApiDate(f.endDate.value)
    ensures r.AddSeason? ==> r.tenant == TENANT && r.competitorIds == []
  {
    var start := toApiDate(f.startDate.value);
    var end := toApiDate(f.endDate.value);
    match seasonToEdit
    case Some(s) => UpdateSeason(s.id, f.name, start, end, f.isActive)
    case None => AddSeason(f.name, start, end, f.isActive, TENANT, [])
  }

  /** The callbacks after the request: saved, then closed, and only when
      it succeeded. */
  function CallbacksAfter(outcome: Outcome): (cs: seq<Callback>)
    ensures outcome.Success? ==> cs == [OnSeasonSaved, OnClose]
    ensures outcome.Failure? ==> cs == []
  {
    if outcome.Success? then [OnSeasonSaved, OnClose] else []
  }

  // ---------------------------------------------------------------------
  // Properties

  /** On calendar dates the end-date rule is the calendar order: the end
      day must come strictly after the start day. */
  lemma EndAfterStartIsCalendarOrder(start: CalendarDate, end: CalendarDate)
    requires IsCalendarDate(start) && IsCalendarDate(end)
    ensures EndAfterStart(Some(start), end) <==> LaterDay(end, start)
  {
    if end.year > start.year {
      assert TimeKey(end) >= TimeKey(CalendarDate(end.year, 1, 1));
      assert TimeKey(start) <= TimeKey(CalendarDate(start.year, 12, 31));
    } else if end.year < start.year {
      assert TimeKey(start) >= TimeKey(CalendarDate(start.year, 1, 1));
      assert TimeKey(end) <= TimeKey(CalendarDate(end.year, 12, 31));
    }
  }

  /** A season may not start and end on the same day, and an end date
      before the start date is refused. */
  lemma SameOrEarlierDayRefused(f: SeasonFormInputs)
    requires f.startDate.Some? && f.endDate.Some?
    requires IsCalendarDate(f.startDate.value) && IsCalendarDate(f.endDate.value)
    requires !LaterDay(f.endDate.value, f.startDate.value)
    ensures Validate(f).endDate == Some(EndNotAfterStart)
    ensures !IsValid(f)
  {
    EndAfterStartIsCalendarOrder(f.startDate.value, f.endDate.value);
  }

  /** A form is accepted exactly when the name and both dates are filled
      and the end is strictly after the start. */
  lemma ValidIff(f: SeasonFormInputs)
    ensures IsValid(f) <==>
              f.name != "" && f.startDate.Some? && f.endDate.Some?
              && TimeKey(f.endDate.value) > TimeKey(f.startDate.value)
  {
  }

  /** A new-season form cannot be submitted as it opens. */
  lemma BlankFormRefused(readApiDate: string -> Option<CalendarDate>)
    ensures Validate(InitialForm(None, readApiDate)) == SeasonFormErrors(Some(Required), Some(Required), Some(Required))
  {
  }
}
