/** The entities the core works on: roles, the claims of a decoded bearer
    token, the signed-in user, AGC competitors and seasons. */
module Types {
  import opened Common

  /** The closed set of role names the user administration knows. */
  datatype Role = RoleUser | RoleAdmin | RoleBizbizeAdmin | RoleGecekoduAdmin | RoleAgcAdmin {
    /** The role's wire name, as tokens and the API spell it. */
    function Name(): string {
      match this
      case RoleUser => "ROLE_USER"
      case RoleAdmin => "ROLE_ADMIN"
      case RoleBizbizeAdmin => "ROLE_BIZBIZE_ADMIN"
      case RoleGecekoduAdmin => "ROLE_GECEKODU_ADMIN"
      case RoleAgcAdmin => "ROLE_AGC_ADMIN"
    }

    /** The role's position in `ALL_ROLES`. */
    function Rank(): (k: nat)
      ensures k < |ALL_ROLES| && ALL_ROLES[k] == this
    {
      match this
      case RoleUser => 0
      case RoleAdmin => 1
      case RoleBizbizeAdmin => 2
      case RoleGecekoduAdmin => 3
      case RoleAgcAdmin => 4
    }
  }

  /** Every role, in the order the role editor offers them. */
  const ALL_ROLES: seq<Role> := [RoleUser, RoleAdmin, RoleBizbizeAdmin, RoleGecekoduAdmin, RoleAgcAdmin]

  /** Different roles have different wire names, and every role is listed. */
  lemma RoleNamesDistinct(a: Role, b: Role)
    ensures a.Name() == b.Name() <==> a == b
    ensures a in ALL_ROLES
  {
  }

  /** `ALL_ROLES` lists every role. */
  lemma AllRolesListed()
    ensures forall role: Role :: role in ALL_ROLES
  {
    forall role: Role ensures role in ALL_ROLES {
      assert ALL_ROLES[role.Rank()] == role;
    }
  }

  /** The claims read from a bearer token. `roles` is `None` when the
      token carries no roles claim. `exp` is the number JavaScript
      makes of the claim in `exp * 1000`, in seconds since the epoch. The
      decoder does not check the claim: `null` and `[]` count as 0, `true`
      as 1 and a numeric string as its number, all `Some`. `None` stands
      for a missing claim or one that makes `exp * 1000` `NaN` (a
      non-numeric string, an object), which compares false with
      everything. */
  datatype DecodedToken = DecodedToken(sub: string, roles: Option<seq<string>>, exp: Option<int>, iat: int) {
    /** `exp * 1000 < now` as JavaScript evaluates it. */
    predicate ExpiresBefore(now: int) {
      exp.Some? && exp.value * 1000 < now
    }

    /** `exp * 1000 > now` as JavaScript evaluates it. */
    predicate ExpiresAfter(now: int) {
      exp.Some? && exp.value * 1000 > now
    }
  }

  /** The signed-in user as the session keeps it. */
  datatype User = User(id: string, email: string, roles: Option<seq<string>>)

  /** A user account as the user administration API lists it (creation and
      last-login timestamps are display-only and left out). */
  datatype ApiUser = ApiUser(id: int, username: string, roles: seq<string>)

  /** A competitor of the AGC ledger. */
  datatype Competitor = Competitor(id: int, name: string, totalPoints: int, competitionCount: int)

  /** An AGC season. The date fields are the API's own strings; `competitors`
      is `None` when the API omitted the list. */
  datatype Season = Season(id: int, name: string, startDate: string, endDate: string,
                           isActive: bool, competitors: Option<seq<Competitor>>)
}
