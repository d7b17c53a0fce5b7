/** The points modal: a signed points delta for one competitor, validated
    as required and non-zero, sent as is to the points endpoint. */
module AddPoints {
  import opened Common
  import opened Types

  /** Why the delta was rejected. */
  datatype PointsError = PointsRequired | PointsZero

  /** The request: the competitor's id and the delta exactly as entered. */
  datatype PointsRequest = PointsRequest(competitorId: int, points: int)

  /** The parent's callbacks, in the order they are called. */
  datatype Callback = OnPointsAdded | OnClose

  /** What one submission did: the request sent, if any, and the callbacks
      called. */
  datatype Effects = Effects(request: Option<PointsRequest>, callbacks: seq<Callback>)

  /** What pressing submit did: the form rejected the delta, or the
      submit handler ran. */
  datatype SubmitResult = Rejected(error: PointsError) | Submitted(effects: Effects)

  /** The field rules of the delta: required, and not zero. An empty input
      is `None`. */
  function ValidatePoints(points: Option<int>): (e: Option<PointsError>)
    ensures e.None? <==> points.Some? && points.value != 0
    ensures points.None? ==> e == Some(PointsRequired)
    ensures points == Some(0) ==> e == Some(PointsZero)
  {
    if points.None? then Some(PointsRequired)
    else if points.value == 0 then Some(PointsZero)
    else None
  }

  /** The submit handler: without a competitor nothing happens; otherwise
      the request is sent and, only if it succeeded, the parent is told and
      the modal closed. */
  function OnSubmit(competitor: Option<Competitor>, points: int, outcome: Outcome): (r: Effects)
    ensures competitor.None? ==> r == Effects(None, [])
    ensures competitor.Some? ==> r.request == Some(PointsRequest(competitor.value.id, points))
    ensures r.callbacks != [] <==> competitor.Some? && outcome.Success?
    ensures r.callbacks != [] ==> r.callbacks == [OnPointsAdded, OnClose]
  {
    if competitor.None? then Effects(None, [])
    else
      Effects(Some(PointsRequest(competitor.value.id, points)),
              if outcome.Success? then [OnPointsAdded, OnClose] else [])
  }

  /** Pressing submit: the field rules run first and the handler only on a
      valid delta. */
  function HandleSubmit(competitor: Option<Competitor>, input: Option<int>, outcome: Outcome): (r: SubmitResult)
    ensures r.Rejected? <==> input.None? || input == Some(0)
    ensures r.Rejected? ==> Some(r.error) == ValidatePoints(input)
    ensures r.Submitted? ==> (r.effects.request.Some? <==> competitor.Some?)
    ensures r.Submitted? && r.effects.request.Some? ==> r.effects.request.value.points == input.value
  {
    match ValidatePoints(input)
    case Some(e) => Rejected(e)
    case None => Submitted(OnSubmit(competitor, input.value, outcome))
  }

  /** The close effect: a closed modal forgets the delta. */
  function FormAfterOpenChange(isOpen: bool, input: Option<int>): (r: Option<int>)
    ensures !isOpen ==> r.None?
    ensures isOpen ==> r == input
  {
    if !isOpen then None else input
  }

  // ---------------------------------------------------------------------
  // Properties

  /** A request leaves exactly when there is a competitor and the delta is
      present and non-zero, and it carries that delta unchanged. */
  lemma RequestIffValidDelta(competitor: Option<Competitor>, input: Option<int>, outcome: Outcome)
    ensures var r := HandleSubmit(competitor, input, outcome);
            (r.Submitted? && r.effects.request.Some?) <==> competitor.Some? && input.Some? && input.value != 0
    ensures var r := HandleSubmit(competitor, input, outcome);
            r.Submitted? && r.effects.request.Some? ==>
              r.effects.request.value == PointsRequest(competitor.value.id, input.value)
  {
  }

  /** A zero delta and an empty field never reach the API. */
  lemma ZeroDeltaNeverSent(competitor: Option<Competitor>, outcome: Outcome)
    ensures HandleSubmit(competitor, Some(0), outcome) == Rejected(PointsZero)
    ensures HandleSubmit(competitor, None, outcome) == Rejected(PointsRequired)
  {
  }

  /** No arithmetic on the current total happens here: the competitor's
      points and name do not influence what is sent. */
  lemma RequestIgnoresCurrentTotal(c1: Competitor, c2: Competitor, input: Option<int>, outcome: Outcome)
    requires c1.id == c2.id
    ensures HandleSubmit(Some(c1), input, outcome) == HandleSubmit(Some(c2), input, outcome)
  {
  }

  /** Callbacks run only after a request that succeeded, refresh first. */
  lemma CallbacksOnlyAfterSuccess(competitor: Option<Competitor>, input: Option<int>, outcome: Outcome)
    ensures var r := HandleSubmit(competitor, input, outcome);
            r.Submitted? && r.effects.callbacks != [] ==>
              outcome.Success? && r.effects.request.Some? && r.effects.callbacks[0] == OnPointsAdded
  {
  }
}
