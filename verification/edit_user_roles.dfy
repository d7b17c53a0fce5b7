/** The role editor of the user administration: the roles a user holds,
    the roles that can still be granted, and the grant/revoke handler that
    calls the API and then updates the local list. */
module EditUserRoles {
  import opened Common
  import opened Types

  /** Which button was pressed: grant a role or revoke it. */
  datatype RoleAction = Add | Remove

  /** The request the handler sends: the endpoint and its two query
      parameters. */
  datatype RoleRequest = RoleRequest(endpoint: string, username: string, role: string)

  function Endpoint(action: RoleAction): string {
    match action
    case Add => "/users/addRole"
    case Remove => "/users/removeRole"
  }

  /** `availableRolesToAdd`: the known roles the user does not hold yet. */
  function AvailableRolesToAdd(current: seq<string>): (r: seq<Role>)
    ensures forall role: Role :: role in r <==> role.Name() !in current
    ensures |r| <= |ALL_ROLES|
  {
    AllRolesListed();
    Filter(ALL_ROLES, (role: Role) => role.Name() !in current)
  }

  /** The local role list after a request that succeeded: a grant appends
      the role, a revoke drops every occurrence of it. */
  function AfterRoleChange(roles: seq<string>, role: string, action: RoleAction): (r: seq<string>)
    ensures action == Add ==> |r| == |roles| + 1 && r[..|roles|] == roles && r[|roles|] == role
    ensures action == Remove ==> role !in r && |r| <= |roles|
    ensures action == Remove ==> forall x :: x in r <==> x in roles && x != role
    ensures action == Remove ==> multiset(r) == multiset(roles)[role := 0]
  {
    match action
    case Add => roles + [role]
    case Remove =>
      var keep := (x: string) => x != role;
      FilterMultiset(roles, keep);
      assert forall x :: multiset(Filter(roles, keep))[x] == multiset(roles)[role := 0][x];
      Filter(roles, keep)
  }

  /** The state of the role editor. */
  class RoleEditor {
    var currentUserRoles: seq<string>
    var isLoading: bool

    constructor ()
      ensures currentUserRoles == [] && !isLoading
    {
      currentUserRoles := [];
      isLoading := false;
    }

    /** The revoke button is enabled: nothing is in flight, and the role is
        not the basic user role. */
    predicate CanRemove(role: string)
      reads this
      ensures CanRemove(role) ==> role != RoleUser.Name()
      ensures isLoading ==> !CanRemove(role)
      ensures !isLoading && role != RoleUser.Name() ==> CanRemove(role)
    {
      !isLoading && role != RoleUser.Name()
    }

    /** The user effect: a newly selected user's roles replace the list; no
        user leaves it as it was. */
    method SyncUser(user: Option<ApiUser>)
      modifies this`currentUserRoles
      ensures user.Some? ==> currentUserRoles == user.value.roles
      ensures user.None? ==> currentUserRoles == old(currentUserRoles)
    {
      if user.Some? {
        currentUserRoles := user.value.roles;
      }
    }

    /** `handleRoleChange(role, action)`. `outcome` is what the API call
        returned. The request sent (if any) and whether the parent was
        told to refresh are returned. */
    method HandleRoleChange(user: Option<ApiUser>, role: string, action: RoleAction, outcome: Outcome)
      returns (sent: Option<RoleRequest>, notified: bool)
      modifies this
      ensures user.None? ==> sent.None? && !notified
      ensures user.None? ==> currentUserRoles == old(currentUserRoles) && isLoading == old(isLoading)
      ensures user.Some? ==> sent == Some(RoleRequest(Endpoint(action), user.value.username, role)) && !isLoading
      ensures user.Some? && outcome.Success? ==>
                notified && currentUserRoles == AfterRoleChange(old(currentUserRoles), role, action)
      ensures user.Some? && outcome.Failure? ==> !notified && currentUserRoles == old(currentUserRoles)
    {
      sent := None;
      notified := false;
      if user.None? {
        return;
      }
      isLoading := true;
      sent := Some(RoleRequest(Endpoint(action), user.value.username, role));
      if outcome.Success? {
        if action == Add {
          currentUserRoles := currentUserRoles + [role];
        } else {
          currentUserRoles := Filter(currentUserRoles, (x: string) => x != role);
        }
        notified := true;
      }
      isLoading := false;
    }
  }

  // ---------------------------------------------------------------------
  // Properties

  /** The grantable roles come in `ALL_ROLES` order, hence without repeats. */
  lemma AvailableRolesInOrder(current: seq<string>)
    ensures IncreasingBy(AvailableRolesToAdd(current), (role: Role) => role.Rank())
  {
    forall i | 0 <= i < |ALL_ROLES| ensures ALL_ROLES[i].Rank() == i {
    }
    FilterIncreasing(ALL_ROLES, (role: Role) => role.Name() !in current, (role: Role) => role.Rank());
  }

  /** A user holding no known role may be granted every role, in order; one
      holding them all may be granted none. */
  lemma AvailableRolesExtremes(all: seq<string>)
    requires forall role: Role :: role.Name() in all
    ensures AvailableRolesToAdd([]) == ALL_ROLES
    ensures AvailableRolesToAdd(all) == []
  {
    FilterKeepsAll(ALL_ROLES, (role: Role) => role.Name() !in []);
  }

  /** Granting a role the user lacks and then revoking it gives the
      original list back. */
  lemma GrantThenRevoke(roles: seq<string>, role: string)
    requires role !in roles
    ensures AfterRoleChange(AfterRoleChange(roles, role, Add), role, Remove) == roles
  {
    var keep := (x: string) => x != role;
    FilterAppend(roles, [role], keep);
    FilterKeepsAll(roles, keep);
    FilterSingleton(role, keep);
  }

  /** Revoking a role the user does not hold leaves the list unchanged,
      and revoking twice is the same as revoking once. */
  lemma RevokeIdempotent(roles: seq<string>, role: string)
    ensures role !in roles ==> AfterRoleChange(roles, role, Remove) == roles
    ensures AfterRoleChange(AfterRoleChange(roles, role, Remove), role, Remove) == AfterRoleChange(roles, role, Remove)
  {
    var keep := (x: string) => x != role;
    var once := AfterRoleChange(roles, role, Remove);
    FilterKeepsAll(once, keep);
    if role !in roles {
      FilterKeepsAll(roles, keep);
    }
  }

  /** A revoke works entry by entry: revoking from a split list revokes
      from each part, so the remaining roles keep their order. */
  lemma RevokeKeepsOrder(a: seq<string>, b: seq<string>, role: string)
    ensures AfterRoleChange(a + b, role, Remove) == AfterRoleChange(a, role, Remove) + AfterRoleChange(b, role, Remove)
  {
    FilterAppend(a, b, (x: string) => x != role);
  }

  /** After a successful grant the role is no longer offered; after a
      successful revoke it is offered again. */
  lemma GrantAndRevokeUpdateOffer(roles: seq<string>, role: Role)
    ensures role !in AvailableRolesToAdd(AfterRoleChange(roles, role.Name(), Add))
    ensures role in AvailableRolesToAdd(AfterRoleChange(roles, role.Name(), Remove))
  {
    var added := AfterRoleChange(roles, role.Name(), Add);
    assert added[|roles|] == role.Name();
  }

  /** The basic user role can never be revoked from the editor. */
  lemma UserRoleNeverRemovable(editor: RoleEditor)
    ensures !editor.CanRemove(RoleUser.Name())
  {
  }
}
