/** The new-competitor form of the AGC ledger: its defaults, its field
    rules, and the payload it posts. */
module CompetitorForm {
  import opened Common

  /** The form's values. The two number inputs are `None` when empty. */
  datatype CompetitorFormInputs = CompetitorFormInputs(name: string, totalPoints: Option<int>,
                                                       competitionCount: Option<int>, isActive: bool)

  /** A rule a field broke. */
  datatype FieldError = Required | Negative

  /** The broken rule of each field, if any. */
  datatype CompetitorFormErrors = CompetitorFormErrors(name: Option<FieldError>, totalPoints: Option<FieldError>,
                                                       competitionCount: Option<FieldError>)

  /** The posted payload: the form's fields and the AGC tenant. */
  datatype AddCompetitorPayload = AddCompetitorPayload(name: string, totalPoints: int, competitionCount: int,
                                                       isActive: bool, tenant: string)

  /** The parent's callbacks, in the order they are called. */
  datatype Callback = OnCompetitorAdded | OnClose

  const TENANT: string := "AGC"

  /** The values the form starts with and returns to on every open. */
  function Defaults(): (f: CompetitorFormInputs)
    ensures f.name == "" && f.totalPoints == Some(0) && f.competitionCount == Some(0) && f.isActive
  {
    CompetitorFormInputs("", Some(0), Some(0), true)
  }

  /** A required count that must not be negative. */
  function CountError(v: Option<int>): (e: Option<FieldError>)
    ensures e.None? <==> v.Some? && v.value >= 0
    ensures v.None? ==> e == Some(Required)
    ensures v.Some? && v.value < 0 ==> e == Some(Negative)
  {
    if v.None? then Some(Required)
    else if v.value < 0 then Some(Negative)
    else None
  }

  /** The field rules: a name is required; both counts are required and
      non-negative. */
  function Validate(f: CompetitorFormInputs): (errs: CompetitorFormErrors)
    ensures errs.name.None? <==> f.name != ""
    ensures errs.totalPoints.None? <==> f.totalPoints.Some? && f.totalPoints.value >= 0
    ensures errs.competitionCount.None? <==> f.competitionCount.Some? && f.competitionCount.value >= 0
  {
    CompetitorFormErrors(if f.name == "" then Some(Required) else None,
                         CountError(f.totalPoints), CountError(f.competitionCount))
  }

  predicate IsValid(f: CompetitorFormInputs) {
    Validate(f) == CompetitorFormErrors(None, None, None)
  }

  /** The payload of a valid form: its fields spread, plus the tenant. */
  function Payload(f: CompetitorFormInputs): (p: AddCompetitorPayload)
    requires IsValid(f)
    ensures p.name == f.name && p.totalPoints == f.totalPoints.value
    ensures p.competitionCount == f.competitionCount.value && p.isActive == f.isActive
    ensures p.tenant == TENANT
  {
    AddCompetitorPayload(f.name, f.totalPoints.value, f.competitionCount.value, f.isActive, TENANT)
  }

  /** The callbacks after the post: the parent is told and the modal closed
      only when it succeeded. */
  function CallbacksAfter(outcome: Outcome): (cs: seq<Callback>)
    ensures outcome.Success? ==> cs == [OnCompetitorAdded, OnClose]
    ensures outcome.Failure? ==> cs == []
  {
    if outcome.Success? then [OnCompetitorAdded, OnClose] else []
  }

  /** The open effect: opening the modal puts the defaults back. */
  function FormAfterOpenChange(isOpen: bool, f: CompetitorFormInputs): (r: CompetitorFormInputs)
    ensures isOpen ==> r == Defaults()
    ensures !isOpen ==> r == f
  {
    if isOpen then Defaults() else f
  }

  // ---------------------------------------------------------------------
  // Properties

  /** A form is accepted exactly when the name is filled and both counts
      are present and non-negative. */
  lemma ValidIff(f: CompetitorFormInputs)
    ensures IsValid(f) <==>
              f.name != "" && f.totalPoints.Some? && f.totalPoints.value >= 0
              && f.competitionCount.Some? && f.competitionCount.value >= 0
  {
  }

  /** The defaults break exactly one rule: the missing name. */
  lemma DefaultsNeedOnlyAName()
    ensures Validate(Defaults()) == CompetitorFormErrors(Some(Required), None, None)
    ensures forall name :: name != "" ==> IsValid(Defaults().(name := name))
  {
  }

  /** A posted payload never carries a negative count. */
  lemma PayloadCountsNonNegative(f: CompetitorFormInputs)
    requires IsValid(f)
    ensures Payload(f).totalPoints >= 0 && Payload(f).competitionCount >= 0
  {
  }
}
