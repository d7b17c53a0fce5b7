/** The season page's competitor manager: the same membership view as the
    modal, but bound to one season, removing through the API, and opening
    the points and new-competitor modals. */
module SeasonCompetitorManager {
  import opened Common
  import opened Types
  import opened Membership

  class AgcSeasonCompetitorManager {
    var currentSeasonCompetitors: seq<Competitor>
    /** The select box's value; "" when nothing is picked. */
    var competitorToAdd: string
    var isSubmitting: bool
    var isAddPointsModalOpen: bool
    var competitorForPoints: Option<Competitor>
    var isAddCompetitorSystemModalOpen: bool

    constructor ()
      ensures currentSeasonCompetitors == [] && competitorToAdd == "" && !isSubmitting
      ensures !isAddPointsModalOpen && competitorForPoints == None && !isAddCompetitorSystemModalOpen
    {
      currentSeasonCompetitors := [];
      competitorToAdd := "";
      isSubmitting := false;
      isAddPointsModalOpen := false;
      competitorForPoints := None;
      isAddCompetitorSystemModalOpen := false;
    }

    /** The season effect: the season's members replace the local list and
        the selection is cleared. */
    method SyncSeason(season: Season)
      modifies this`currentSeasonCompetitors, this`competitorToAdd
      ensures currentSeasonCompetitors == SeasonMembers(season)
      ensures competitorToAdd == ""
    {
      currentSeasonCompetitors := SeasonMembers(season);
      competitorToAdd := "";
    }

    /** The select box's change handler. */
    method Select(value: string)
      modifies this`competitorToAdd
      ensures competitorToAdd == value
    {
      competitorToAdd := value;
    }

    /** `handleAddCompetitorToSeason`: with no selection it reports an error
        and sends nothing; otherwise it sends the add request and, on
        success, asks the parent to refresh and clears the selection. */
    method HandleAdd(season: Season, outcome: Outcome)
      returns (sent: Option<MembershipRequest>, notified: bool, reportedError: bool)
      modifies this`competitorToAdd, this`isSubmitting
      ensures currentSeasonCompetitors == old(currentSeasonCompetitors)
      ensures old(competitorToAdd) == "" ==>
                sent.None? && !notified && reportedError && competitorToAdd == "" && isSubmitting == old(isSubmitting)
      ensures old(competitorToAdd) != "" ==>
                sent == Some(AddToSeason(season.id, old(competitorToAdd))) && !isSubmitting
      ensures old(competitorToAdd) != "" && outcome.Success? ==> notified && !reportedError && competitorToAdd == ""
      ensures old(competitorToAdd) != "" && outcome.Failure? ==>
                !notified && reportedError && competitorToAdd == old(competitorToAdd)
    {
      sent, notified, reportedError := None, false, false;
      if competitorToAdd == "" {
        reportedError := true;
        return;
      }
      isSubmitting := true;
      sent := Some(AddToSeason(season.id, competitorToAdd));
      if outcome.Success? {
        notified := true;
        competitorToAdd := "";
      } else {
        reportedError := true;
      }
      isSubmitting := false;
    }

    /** `handleRemoveCompetitorFromSeason`: a declined confirmation does
        nothing; a confirmed one sends the DELETE request and, on success,
        asks the parent to refresh. The local list is left to that refresh. */
    method HandleRemove(season: Season, competitorId: int, confirmed: bool, outcome: Outcome)
      returns (sent: Option<MembershipRequest>, notified: bool)
      modifies this`isSubmitting
      ensures currentSeasonCompetitors == old(currentSeasonCompetitors)
      ensures !confirmed ==> sent.None? && !notified && isSubmitting == old(isSubmitting)
      ensures confirmed ==> sent == Some(RemoveFromSeason(season.id, competitorId)) && !isSubmitting
      ensures confirmed ==> (notified <==> outcome.Success?)
    {
      sent, notified := None, false;
      if !confirmed {
        return;
      }
      isSubmitting := true;
      sent := Some(RemoveFromSeason(season.id, competitorId));
      if outcome.Success? {
        notified := true;
      }
      isSubmitting := false;
    }

    /** Opening the points modal for a member. */
    method OpenAddPoints(competitor: Competitor)
      modifies this`competitorForPoints, this`isAddPointsModalOpen
      ensures competitorForPoints == Some(competitor) && isAddPointsModalOpen
    {
      competitorForPoints := Some(competitor);
      isAddPointsModalOpen := true;
    }

    /** `handlePointsAddedSuccessfully`: refresh, close the points modal and
        forget its member. */
    method PointsAdded() returns (notified: bool)
      modifies this`isAddPointsModalOpen, this`competitorForPoints
      ensures notified && !isAddPointsModalOpen && competitorForPoints == None
    {
      notified := true;
      isAddPointsModalOpen := false;
      competitorForPoints := None;
    }

    /** Closing the points modal: it closes and forgets its member. */
    method ClosePoints()
      modifies this`isAddPointsModalOpen, this`competitorForPoints
      ensures !isAddPointsModalOpen && competitorForPoints == None
    {
      isAddPointsModalOpen := false;
      competitorForPoints := None;
    }

    /** Opening the new-competitor modal. */
    method OpenAddSystemCompetitor()
      modifies this`isAddCompetitorSystemModalOpen
      ensures isAddCompetitorSystemModalOpen
    {
      isAddCompetitorSystemModalOpen := true;
    }

    /** `handleSystemCompetitorAdded`: refresh and close the new-competitor
        modal. */
    method SystemCompetitorAdded() returns (notified: bool)
      modifies this`isAddCompetitorSystemModalOpen
      ensures notified && !isAddCompetitorSystemModalOpen
    {
      notified := true;
      isAddCompetitorSystemModalOpen := false;
    }
  }
}
