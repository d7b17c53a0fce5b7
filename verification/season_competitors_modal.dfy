/** The modal that manages one season's competitors: its local member list,
    the competitor picked for adding, the submitting flag, and the points
    sub-modal it opens for a member. */
module SeasonCompetitorsModal {
  import opened Common
  import opened Types
  import opened Membership

  class ManageSeasonCompetitors {
    var currentSeasonCompetitors: seq<Competitor>
    /** The select box's value; "" when nothing is picked. */
    var competitorToAdd: string
    var isSubmitting: bool
    var isAddPointsModalOpen: bool
    var competitorForPoints: Option<Competitor>

    constructor ()
      ensures currentSeasonCompetitors == [] && competitorToAdd == "" && !isSubmitting
      ensures !isAddPointsModalOpen && competitorForPoints == None
    {
      currentSeasonCompetitors := [];
      competitorToAdd := "";
      isSubmitting := false;
      isAddPointsModalOpen := false;
      competitorForPoints := None;
    }

    /** The add button is enabled: a competitor is picked and nothing is in
        flight. */
    predicate AddEnabled()
      reads this
      ensures AddEnabled() ==> competitorToAdd != ""
      ensures isSubmitting || competitorToAdd == "" ==> !AddEnabled()
    {
      competitorToAdd != "" && !isSubmitting
    }

    /** The open/close effect: opening with a season loads its members,
        closing empties the list, and the selection is reset either way
        (an open modal without a season keeps its list). */
    method SyncOpen(season: Option<Season>, isOpen: bool)
      modifies this`currentSeasonCompetitors, this`competitorToAdd
      ensures season.Some? && isOpen ==> currentSeasonCompetitors == SeasonMembers(season.value)
      ensures !isOpen ==> currentSeasonCompetitors == []
      ensures season.None? && isOpen ==> currentSeasonCompetitors == old(currentSeasonCompetitors)
      ensures competitorToAdd == ""
    {
      if season.Some? && isOpen {
        currentSeasonCompetitors := SeasonMembers(season.value);
      } else if !isOpen {
        currentSeasonCompetitors := [];
      }
      competitorToAdd := "";
    }

    /** The select box's change handler. */
    method Select(value: string)
      modifies this`competitorToAdd
      ensures competitorToAdd == value
    {
      competitorToAdd := value;
    }

    /** `handleAddCompetitorToSeason`. Without a season or a selection it
        reports an error and sends nothing; otherwise it sends the add
        request and, on success, asks the parent to refresh and clears the
        selection. The local list is never changed here. */
    method HandleAdd(season: Option<Season>, outcome: Outcome)
      returns (sent: Option<MembershipRequest>, notified: bool, reportedError: bool)
      modifies this`competitorToAdd, this`isSubmitting
      ensures currentSeasonCompetitors == old(currentSeasonCompetitors)
      ensures season.None? || old(competitorToAdd) == "" ==>
                sent.None? && !notified && reportedError
                && competitorToAdd == old(competitorToAdd) && isSubmitting == old(isSubmitting)
      ensures season.Some? && old(competitorToAdd) != "" ==>
                sent == Some(AddToSeason(season.value.id, old(competitorToAdd))) && !isSubmitting
      ensures season.Some? && old(competitorToAdd) != "" && outcome.Success? ==>
                notified && !reportedError && competitorToAdd == ""
      ensures season.Some? && old(competitorToAdd) != "" && outcome.Failure? ==>
                !notified && reportedError && competitorToAdd == old(competitorToAdd)
    {
      sent, notified, reportedError := None, false, false;
      if season.None? || competitorToAdd == "" {
        reportedError := true;
        return;
      }
      isSubmitting := true;
      sent := Some(AddToSeason(season.value.id, competitorToAdd));
      if outcome.Success? {
        notified := true;
        competitorToAdd := "";
      } else {
        reportedError := true;
      }
      isSubmitting := false;
    }

    /** `handleRemoveCompetitorFromSeason`. Without a season, or when the
        confirmation is declined, nothing happens. A confirmed removal drops
        the member locally and asks the parent to refresh; no request is
        sent for it. */
    method HandleRemove(season: Option<Season>, competitorId: int, confirmed: bool)
      returns (notified: bool)
      modifies this`currentSeasonCompetitors, this`isSubmitting
      ensures season.None? || !confirmed ==>
                !notified && currentSeasonCompetitors == old(currentSeasonCompetitors) && isSubmitting == old(isSubmitting)
      ensures season.Some? && confirmed ==>
                notified && !isSubmitting
                && currentSeasonCompetitors == RemoveById(old(currentSeasonCompetitors), competitorId)
    {
      notified := false;
      if season.None? || !confirmed {
        return;
      }
      isSubmitting := true;
      currentSeasonCompetitors := RemoveById(currentSeasonCompetitors, competitorId);
      notified := true;
      isSubmitting := false;
    }

    /** Opening the points sub-modal for a member. */
    method OpenAddPoints(competitor: Competitor)
      modifies this`competitorForPoints, this`isAddPointsModalOpen
      ensures competitorForPoints == Some(competitor) && isAddPointsModalOpen
    {
      competitorForPoints := Some(competitor);
      isAddPointsModalOpen := true;
    }

    /** Points were added: refresh and close the sub-modal. The member the
        sub-modal was opened for stays selected. */
    method PointsAdded() returns (notified: bool)
      modifies this`isAddPointsModalOpen
      ensures notified && !isAddPointsModalOpen
    {
      notified := true;
      isAddPointsModalOpen := false;
    }

    /** Closing the points sub-modal: it closes and forgets its member. */
    method ClosePoints()
      modifies this`isAddPointsModalOpen, this`competitorForPoints
      ensures !isAddPointsModalOpen && competitorForPoints == None
    {
      isAddPointsModalOpen := false;
      competitorForPoints := None;
    }
  }

  /** Right after a confirmed removal the removed competitor is offered for
      adding again. */
  method RemoveThenOffer(modal: ManageSeasonCompetitors, season: Season, all: seq<Competitor>, c: Competitor)
    returns (offered: seq<Competitor>)
    requires c in all
    modifies modal
    ensures c in offered
    ensures offered == AddableCompetitors(all, modal.currentSeasonCompetitors)
  {
    var _ := modal.HandleRemove(Some(season), c.id, true);
    offered := AddableCompetitors(all, modal.currentSeasonCompetitors);
    RemovedBecomesAddable(all, old(modal.currentSeasonCompetitors), c);
  }
}
