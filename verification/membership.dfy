/** Season membership as both AGC membership screens see it: the members a
    season lists, the system competitors that can still be added, the local
    removal of a member, and the requests the screens send. */
module Membership {
  import opened Common
  import opened Types

  /** A membership request. The competitor of an add is the select box's
      value, a string; the competitor of a removal is a member's id. */
  datatype MembershipRequest =
    | AddToSeason(seasonId: int, selection: string)
    | RemoveFromSeason(seasonId: int, memberId: int)

  /** Some entry of `list` has the id `id`. */
  predicate HasId(list: seq<Competitor>, id: int) {
    exists i :: 0 <= i < |list| && list[i].id == id
  }

  /** The members a season lists (`season.competitors || []`). */
  function SeasonMembers(season: Season): (r: seq<Competitor>)
    ensures season.competitors.None? ==> r == []
    ensures season.competitors.Some? ==> r == season.competitors.value
  {
    season.competitors.GetOr([])
  }

  /** The system competitors whose id no current member has, in system
      order: the options of the "add competitor" select box. */
  function AddableCompetitors(all: seq<Competitor>, current: seq<Competitor>): (r: seq<Competitor>)
    ensures |r| <= |all|
    ensures forall c :: c in r <==> c in all && !HasId(current, c.id)
  {
    Filter(all, (c: Competitor) => !HasId(current, c.id))
  }

  /** The local list with every entry of id `id` dropped, the rest in
      order. */
  function RemoveById(list: seq<Competitor>, id: int): (r: seq<Competitor>)
    ensures |r| <= |list|
    ensures !HasId(r, id)
    ensures forall c :: c in r <==> c in list && c.id != id
    ensures forall c :: multiset(r)[c] == if c.id == id then 0 else multiset(list)[c]
  {
    var keep := (c: Competitor) => c.id != id;
    var r := Filter(list, keep);
    assert forall i :: 0 <= i < |r| ==> r[i] in r;
    FilterMultiset(list, keep);
    r
  }

  // ---------------------------------------------------------------------
  // Properties

  /** Every system competitor is either already a member (by id) or
      addable, never both. */
  lemma AddablePartitionsSystem(all: seq<Competitor>, current: seq<Competitor>, c: Competitor)
    requires c in all
    ensures c in AddableCompetitors(all, current) <==> !HasId(current, c.id)
  {
  }

  /** No addable competitor shares an id with a member. */
  lemma AddableDisjointFromMembers(all: seq<Competitor>, current: seq<Competitor>)
    ensures forall i, j :: 0 <= i < |AddableCompetitors(all, current)| && 0 <= j < |current|
              ==> AddableCompetitors(all, current)[i].id != current[j].id
  {
    var r := AddableCompetitors(all, current);
    forall i, j | 0 <= i < |r| && 0 <= j < |current| ensures r[i].id != current[j].id {
      assert r[i] in r;
    }
  }

  /** The addable list keeps system order: it distributes over a split of
      the system list. */
  lemma AddableKeepsOrder(a: seq<Competitor>, b: seq<Competitor>, current: seq<Competitor>)
    ensures AddableCompetitors(a + b, current) == AddableCompetitors(a, current) + AddableCompetitors(b, current)
  {
    FilterAppend(a, b, (c: Competitor) => !HasId(current, c.id));
  }

  /** With no members every system competitor is addable, in order. */
  lemma NoMembersAllAddable(all: seq<Competitor>)
    ensures AddableCompetitors(all, []) == all
  {
    FilterKeepsAll(all, (c: Competitor) => !HasId([], c.id));
  }

  /** Dropping a member locally makes every system competitor with that id
      addable again. */
  lemma RemovedBecomesAddable(all: seq<Competitor>, current: seq<Competitor>, c: Competitor)
    requires c in all
    ensures c in AddableCompetitors(all, RemoveById(current, c.id))
  {
  }

  /** A removal works entry by entry: removing from a split list removes
      from each part, so the remaining members keep their order. */
  lemma RemoveByIdKeepsOrder(a: seq<Competitor>, b: seq<Competitor>, id: int)
    ensures RemoveById(a + b, id) == RemoveById(a, id) + RemoveById(b, id)
  {
    FilterAppend(a, b, (c: Competitor) => c.id != id);
  }

  /** Dropping an id that no member has leaves the list as it was, and
      dropping the same id twice is the same as once. */
  lemma RemoveByIdIdempotent(list: seq<Competitor>, id: int)
    ensures !HasId(list, id) ==> RemoveById(list, id) == list
    ensures RemoveById(RemoveById(list, id), id) == RemoveById(list, id)
  {
    var keep := (c: Competitor) => c.id != id;
    FilterKeepsAll(RemoveById(list, id), keep);
    if !HasId(list, id) {
      FilterKeepsAll(list, keep);
    }
  }
}
