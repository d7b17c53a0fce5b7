/** The route guard that runs before every page: it reads the `token`
    cookie, checks the token's expiry and decides whether the navigation
    proceeds, is redirected, or is redirected with the cookie deleted. */
module Middleware {
  import opened Common
  import opened Types

  /** Team role -> the path prefix of that team's section. */
  const TEAM_PATHS: map<string, string> :=
    map[RoleBizbizeAdmin.Name() := "/bizbize", RoleGecekoduAdmin.Name() := "/gecekodu", RoleAgcAdmin.Name() := "/agc"]
  const ALL_TEAM_PATHS: seq<string> := ["/bizbize", "/gecekodu", "/agc"]
  const ADMIN_ROLE: string := RoleAdmin.Name()
  const SUPERADMIN_PATH: string := "/superadmin"
  const LOGIN_PATH: string := "/login"
  const FORBIDDEN_PATH: string := "/403"
  const ROOT_PATH: string := "/"

  /** What the guard answers. A redirect to the login page may carry the
      originally requested path as its `redirect` query parameter. */
  datatype Decision =
    | Next
    | Redirect(path: string, redirectParam: Option<string>)
    | RedirectAndClearCookie(path: string)

  /** The path lies under some team section (plain string prefix). */
  predicate IsTeamPath(pathname: string) {
    exists k :: 0 <= k < |ALL_TEAM_PATHS| && StartsWith(pathname, ALL_TEAM_PATHS[k])
  }

  /** Some role of the user maps to a team prefix of the path. */
  predicate CanAccess(roles: seq<string>, pathname: string) {
    exists i :: 0 <= i < |roles| && roles[i] in TEAM_PATHS && StartsWith(pathname, TEAM_PATHS[roles[i]])
  }

  /** The team path of the first role, in token order, that has one. */
  function UserTeamPath(roles: seq<string>): Option<string> {
    FirstMapped(roles, TEAM_PATHS)
  }

  /** A user's team path is one of the three team sections. */
  lemma UserTeamPathIsSection(roles: seq<string>)
    ensures UserTeamPath(roles).Some? ==> UserTeamPath(roles).value in ALL_TEAM_PATHS
  {
    if UserTeamPath(roles).Some? {
      var i :| 0 <= i < |roles| && roles[i] in TEAM_PATHS && TEAM_PATHS[roles[i]] == UserTeamPath(roles).value;
    }
  }

  /** The guard's decision for a request to `pathname` carrying the cookie
      value `token`, where `decode` is the JWT decoder (`None` when it
      throws) and `now` is the clock in milliseconds. An empty cookie
      counts as no cookie. */
  function Decide(pathname: string, token: Option<string>, decode: string -> Option<DecodedToken>, now: int): (d: Decision)
    ensures d.RedirectAndClearCookie? ==> d.path == LOGIN_PATH && token.Some? && token.value != ""
    ensures d.Redirect? && d.path == LOGIN_PATH <==> (token.None? || token.value == "") && pathname != LOGIN_PATH
    ensures d.Redirect? && d.redirectParam.Some? ==> d.path == LOGIN_PATH && d.redirectParam.value == pathname
  {
    if token.None? || token.value == "" then
      if pathname == LOGIN_PATH then Next else Redirect(LOGIN_PATH, Some(pathname))
    else
      match decode(token.value)
      case None => RedirectAndClearCookie(LOGIN_PATH)
      case Some(t) =>
        if t.ExpiresBefore(now) then RedirectAndClearCookie(LOGIN_PATH)
        else DecideAuthenticated(pathname, t.roles.GetOr([]))
  }

  /** The part of the decision taken once the token is known to be good. */
  function DecideAuthenticated(pathname: string, roles: seq<string>): (d: Decision)
    ensures !d.RedirectAndClearCookie?
    ensures d.Redirect? ==> d.redirectParam.None?
    ensures d.Redirect? ==> d.path in [SUPERADMIN_PATH, FORBIDDEN_PATH, ROOT_PATH] + ALL_TEAM_PATHS
    ensures d.Redirect? ==> d.path != LOGIN_PATH
  {
    UserTeamPathIsSection(roles);
    var isSuperAdmin := ADMIN_ROLE in roles;
    var userTeamPath := UserTeamPath(roles).GetOr(ROOT_PATH);
    if pathname == LOGIN_PATH then
      Redirect(if isSuperAdmin then SUPERADMIN_PATH else userTeamPath, None)
    else if IsTeamPath(pathname) && !isSuperAdmin && !CanAccess(roles, pathname)
            && (pathname != userTeamPath || (userTeamPath == ROOT_PATH && IsTeamPath(pathname))) then
      Redirect(FORBIDDEN_PATH, None)
    else if pathname == ROOT_PATH && isSuperAdmin then
      Redirect(SUPERADMIN_PATH, None)
    else if pathname == ROOT_PATH && UserTeamPath(roles).Some? then
      Redirect(UserTeamPath(roles).value, None)
    else if pathname == SUPERADMIN_PATH && !isSuperAdmin then
      Redirect(FORBIDDEN_PATH, None)
    else
      Next
  }

  /** The loop over the user's roles that stops at the first role with a
      team path. */
  method FindTeamPath(userRoles: seq<string>) returns (teamPath: Option<string>)
    ensures teamPath == UserTeamPath(userRoles)
    ensures teamPath.Some? ==> teamPath.value in ALL_TEAM_PATHS
  {
    UserTeamPathIsSection(userRoles);
    teamPath := None;
    var i := 0;
    while i < |userRoles|
      invariant 0 <= i <= |userRoles|
      invariant teamPath == None
      invariant forall j :: 0 <= j < i ==> userRoles[j] !in TEAM_PATHS
    {
      if userRoles[i] in TEAM_PATHS {
        teamPath := Some(TEAM_PATHS[userRoles[i]]);
        FirstMappedAt(userRoles, TEAM_PATHS, i);
        return;
      }
      i := i + 1;
    }
  }

  /** The guard as the source runs it, step by step with early returns. */
  method RunMiddleware(pathname: string, token: Option<string>, decode: string -> Option<DecodedToken>, now: int)
    returns (d: Decision)
    ensures d == Decide(pathname, token, decode, now)
  {
    var isAuthPage := pathname == LOGIN_PATH;
    if token.None? || token.value == "" {
      if isAuthPage {
        return Next;
      }
      return Redirect(LOGIN_PATH, Some(pathname));
    }
    var decoded := decode(token.value);
    if decoded.None? {
      return RedirectAndClearCookie(LOGIN_PATH);
    }
    if decoded.value.ExpiresBefore(now) {
      return RedirectAndClearCookie(LOGIN_PATH);
    }
    var userRoles := decoded.value.roles.GetOr([]);
    var isSuperAdmin := ADMIN_ROLE in userRoles;
    if isAuthPage {
      var redirectPath := ROOT_PATH;
      if isSuperAdmin {
        redirectPath := SUPERADMIN_PATH;
      } else {
        var teamPath := FindTeamPath(userRoles);
        redirectPath := teamPath.GetOr(ROOT_PATH);
      }
      return Redirect(redirectPath, None);
    }
    var isAccessingTeamPath := exists k :: 0 <= k < |ALL_TEAM_PATHS| && StartsWith(pathname, ALL_TEAM_PATHS[k]);
    if isAccessingTeamPath && !isSuperAdmin {
      var canAccessCurrentPath := exists i :: 0 <= i < |userRoles| && userRoles[i] in TEAM_PATHS
                                              && StartsWith(pathname, TEAM_PATHS[userRoles[i]]);
      if !canAccessCurrentPath {
        var teamPath := FindTeamPath(userRoles);
        var userTeamPath := teamPath.GetOr(ROOT_PATH);
        if pathname != userTeamPath || (userTeamPath == ROOT_PATH && isAccessingTeamPath) {
          return Redirect(FORBIDDEN_PATH, None);
        }
      }
    }
    if pathname == ROOT_PATH {
      if isSuperAdmin {
        return Redirect(SUPERADMIN_PATH, None);
      }
      var teamPath := FindTeamPath(userRoles);
      if teamPath.Some? {
        return Redirect(teamPath.value, None);
      }
    }
    if pathname == SUPERADMIN_PATH && !isSuperAdmin {
      return Redirect(FORBIDDEN_PATH, None);
    }
    return Next;
  }

  // ---------------------------------------------------------------------
  // Properties of the decision

  /** With no token the login page is served and every other page sends the
      visitor to the login page, remembering where they were going. */
  lemma NoTokenGoesToLogin(pathname: string, token: Option<string>, decode: string -> Option<DecodedToken>, now: int)
    requires token.None? || token == Some("")
    ensures pathname == LOGIN_PATH ==> Decide(pathname, token, decode, now) == Next
    ensures pathname != LOGIN_PATH ==> Decide(pathname, token, decode, now) == Redirect(LOGIN_PATH, Some(pathname))
  {
  }

  /** The cookie is deleted exactly when a present token fails to decode or
      is strictly past its expiry; at `exp * 1000 == now` it is still good,
      and a token with no usable `exp` claim is never past it. */
  lemma ClearCookieIffBadToken(pathname: string, tok: string, decode: string -> Option<DecodedToken>, now: int)
    requires tok != ""
    ensures Decide(pathname, Some(tok), decode, now).RedirectAndClearCookie?
        <==> decode(tok).None? || decode(tok).value.ExpiresBefore(now)
    ensures Decide(pathname, Some(tok), decode, now).RedirectAndClearCookie? ==>
              Decide(pathname, Some(tok), decode, now).path == LOGIN_PATH
  {
  }

  /** A signed-in visit to the login page is forwarded to the user's home:
      the super-admin page, else the path of the first team role in token
      order, else the root. */
  lemma LoginPageForwardsHome(roles: seq<string>)
    ensures ADMIN_ROLE in roles ==> DecideAuthenticated(LOGIN_PATH, roles) == Redirect(SUPERADMIN_PATH, None)
    ensures ADMIN_ROLE !in roles && (exists i :: 0 <= i < |roles| && roles[i] in TEAM_PATHS) ==>
              exists i :: 0 <= i < |roles| && roles[i] in TEAM_PATHS
                          && (forall j :: 0 <= j < i ==> roles[j] !in TEAM_PATHS)
                          && DecideAuthenticated(LOGIN_PATH, roles) == Redirect(TEAM_PATHS[roles[i]], None)
    ensures ADMIN_ROLE !in roles && (forall i :: 0 <= i < |roles| ==> roles[i] !in TEAM_PATHS) ==>
              DecideAuthenticated(LOGIN_PATH, roles) == Redirect(ROOT_PATH, None)
  {
    LoginPageTarget(roles);
    if ADMIN_ROLE !in roles && UserTeamPath(roles).Some? {
      var i :| 0 <= i < |roles| && roles[i] in TEAM_PATHS && TEAM_PATHS[roles[i]] == UserTeamPath(roles).value
               && forall j :: 0 <= j < i ==> roles[j] !in TEAM_PATHS;
    }
  }

  /** The login-page branch of the decision, on its own. */
  lemma LoginPageTarget(roles: seq<string>)
    ensures ADMIN_ROLE in roles ==> DecideAuthenticated(LOGIN_PATH, roles) == Redirect(SUPERADMIN_PATH, None)
    ensures ADMIN_ROLE !in roles ==> DecideAuthenticated(LOGIN_PATH, roles) == Redirect(UserTeamPath(roles).GetOr(ROOT_PATH), None)
  {
  }

  /** The forwarding target follows the token's role order, not the order
      of the team table. */
  lemma ForwardingFollowsTokenOrder()
    ensures DecideAuthenticated(LOGIN_PATH, [RoleAgcAdmin.Name(), RoleBizbizeAdmin.Name()]) == Redirect("/agc", None)
    ensures DecideAuthenticated(ROOT_PATH, [RoleAgcAdmin.Name(), RoleBizbizeAdmin.Name()]) == Redirect("/agc", None)
    ensures DecideAuthenticated(ROOT_PATH, [RoleBizbizeAdmin.Name(), RoleAgcAdmin.Name()]) == Redirect("/bizbize", None)
  {
    FirstMappedAt([RoleAgcAdmin.Name(), RoleBizbizeAdmin.Name()], TEAM_PATHS, 0);
    FirstMappedAt([RoleBizbizeAdmin.Name(), RoleAgcAdmin.Name()], TEAM_PATHS, 0);
  }

  /** A non-super-admin on a team path with no role whose prefix covers the
      path is always sent to the forbidden page: the second guard of that
      branch can never be false there. */
  lemma {:induction false} TeamPathWithoutAccessIsForbidden(pathname: string, roles: seq<string>)
    requires ADMIN_ROLE !in roles
    requires IsTeamPath(pathname) && !CanAccess(roles, pathname)
    ensures DecideAuthenticated(pathname, roles) == Redirect(FORBIDDEN_PATH, None)
  {
    assert pathname != LOGIN_PATH by {
      var k :| 0 <= k < |ALL_TEAM_PATHS| && StartsWith(pathname, ALL_TEAM_PATHS[k]);
      assert ALL_TEAM_PATHS[k][1] != LOGIN_PATH[1];
    }
    match UserTeamPath(roles)
    case None =>
    case Some(p) =>
      var i :| 0 <= i < |roles| && roles[i] in TEAM_PATHS && TEAM_PATHS[roles[i]] == p;
      assert !StartsWith(pathname, TEAM_PATHS[roles[i]]);
      assert StartsWith(p, p);
  }

  /** A super-admin is never sent to the forbidden page, and is only ever
      redirected to the super-admin page. */
  lemma SuperAdminNeverForbidden(pathname: string, roles: seq<string>)
    requires ADMIN_ROLE in roles
    ensures DecideAuthenticated(pathname, roles) == Next || DecideAuthenticated(pathname, roles) == Redirect(SUPERADMIN_PATH, None)
  {
  }

  /** A team role grants every path that starts with its team prefix,
      including paths such as `/agcx` that merely share the prefix. */
  lemma OwnTeamPrefixIsGranted(pathname: string, roles: seq<string>, i: nat)
    requires i < |roles| && roles[i] in TEAM_PATHS && StartsWith(pathname, TEAM_PATHS[roles[i]])
    ensures IsTeamPath(pathname)
    ensures DecideAuthenticated(pathname, roles) == Next
  {
    var p := TEAM_PATHS[roles[i]];
    assert p == ALL_TEAM_PATHS[0] || p == ALL_TEAM_PATHS[1] || p == ALL_TEAM_PATHS[2];
    assert pathname[..|p|] == p;
    assert pathname != LOGIN_PATH && pathname != ROOT_PATH && pathname != SUPERADMIN_PATH by {
      assert pathname[1] == p[1];
    }
  }

  /** Any path with the prefix `/agc` counts as a team path. */
  lemma AgcPrefixIsTeamPath(pathname: string)
    requires StartsWith(pathname, "/agc")
    ensures IsTeamPath(pathname)
  {
    assert StartsWith(pathname, ALL_TEAM_PATHS[2]);
  }

  /** Only the exact path `/superadmin` is closed to other users; every
      longer path below it is let through by this guard, whatever the roles. */
  lemma SuperadminGateIsExact(pathname: string, roles: seq<string>)
    ensures ADMIN_ROLE !in roles ==> DecideAuthenticated(SUPERADMIN_PATH, roles) == Redirect(FORBIDDEN_PATH, None)
    ensures StartsWith(pathname, SUPERADMIN_PATH) && pathname != SUPERADMIN_PATH ==>
              DecideAuthenticated(pathname, roles) == Next
  {
    assert !IsTeamPath(SUPERADMIN_PATH) by {
      forall k | 0 <= k < |ALL_TEAM_PATHS| ensures !StartsWith(SUPERADMIN_PATH, ALL_TEAM_PATHS[k]) {
        assert SUPERADMIN_PATH[1] != ALL_TEAM_PATHS[k][1];
      }
    }
    if StartsWith(pathname, SUPERADMIN_PATH) && pathname != SUPERADMIN_PATH {
      assert pathname[..|SUPERADMIN_PATH|] == SUPERADMIN_PATH;
      assert pathname[1] == 's';
      assert !IsTeamPath(pathname) by {
        forall k | 0 <= k < |ALL_TEAM_PATHS| ensures !StartsWith(pathname, ALL_TEAM_PATHS[k]) {
          assert pathname[1] != ALL_TEAM_PATHS[k][1];
        }
      }
      assert pathname != LOGIN_PATH && pathname != ROOT_PATH;
    }
  }

  /** A signed-in visit to the root goes to the super-admin page or the first
      team path; a user with neither stays on the root. */
  lemma RootForwarding(roles: seq<string>)
    ensures ADMIN_ROLE in roles ==> DecideAuthenticated(ROOT_PATH, roles) == Redirect(SUPERADMIN_PATH, None)
    ensures ADMIN_ROLE !in roles && UserTeamPath(roles).Some? ==>
              DecideAuthenticated(ROOT_PATH, roles) == Redirect(UserTeamPath(roles).value, None)
    ensures ADMIN_ROLE !in roles && UserTeamPath(roles).None? ==> DecideAuthenticated(ROOT_PATH, roles) == Next
  {
    assert !IsTeamPath(ROOT_PATH) by {
      forall k | 0 <= k < |ALL_TEAM_PATHS| ensures !StartsWith(ROOT_PATH, ALL_TEAM_PATHS[k]) {
        assert |ALL_TEAM_PATHS[k]| > |ROOT_PATH|;
      }
    }
  }

  /** A token without a roles claim is treated as a token with no roles. */
  lemma MissingRolesAreEmpty(pathname: string, tok: string, decode: string -> Option<DecodedToken>, now: int)
    requires tok != "" && decode(tok).Some? && decode(tok).value.roles.None?
    requires !decode(tok).value.ExpiresBefore(now)
    ensures Decide(pathname, Some(tok), decode, now) == DecideAuthenticated(pathname, [])
  {
  }
}
