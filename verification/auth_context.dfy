/** The client-side session: the signed-in user and token held by the
    authentication context, the queries every page asks of it, and the
    transitions that set it up (on start), replace it (login) and tear it
    down (logout). */
module AuthContext {
  import opened Common
  import opened Types
  import Middleware

  const ADMIN_ROLE: string := RoleAdmin.Name()
  const LOGIN_PATH: string := "/login"
  const SUPERADMIN_PATH: string := "/superadmin"
  const ROOT_PATH: string := "/"

  /** The role -> home path table that `getRedirectPath` consults. */
  const ROLE_TO_PATH: map<string, string> :=
    map[RoleBizbizeAdmin.Name() := "/bizbize", RoleGecekoduAdmin.Name() := "/gecekodu", RoleAgcAdmin.Name() := "/agc"]

  /** The user record built from a decoded token: both `id` and `email`
      are the token's subject. */
  function UserFromToken(t: DecodedToken): (u: User)
    ensures u.id == t.sub && u.email == t.sub
    ensures IsSuperAdmin(Some(u)) <==> t.roles.Some? && ADMIN_ROLE in t.roles.value
    ensures forall role :: HasRole(Some(u), role) <==> t.roles.Some? && (ADMIN_ROLE in t.roles.value || role in t.roles.value)
  {
    User(t.sub, t.sub, t.roles)
  }

  /** The user's roles contain the super-admin role. */
  predicate IsSuperAdmin(user: Option<User>) {
    user.Some? && user.value.roles.Some? && ADMIN_ROLE in user.value.roles.value
  }

  /** `isAuthenticated()`: a token is held, it decodes, and it expires
      strictly after `now` (milliseconds). */
  function IsAuthenticated(token: Option<string>, decode: string -> Option<DecodedToken>, now: int): (r: bool)
    ensures token.None? || token == Some("") ==> !r
    ensures token.Some? && decode(token.value).None? ==> !r
    ensures r <==> token.Some? && token.value != "" && decode(token.value).Some?
                   && decode(token.value).value.ExpiresAfter(now)
  {
    if token.None? || token.value == "" then false
    else
      match decode(token.value)
      case None => false
      case Some(t) => t.ExpiresAfter(now)
  }

  /** `hasRole(role)`: the super-admin role satisfies every check; otherwise
      the role must be listed; with no user (or no roles) it is false. */
  function HasRole(user: Option<User>, role: string): (r: bool)
    ensures IsSuperAdmin(user) ==> r
    ensures !IsSuperAdmin(user) ==> (r <==> user.Some? && user.value.roles.Some? && role in user.value.roles.value)
    ensures user.None? ==> !r
  {
    if IsSuperAdmin(user) then true
    else user.Some? && user.value.roles.Some? && role in user.value.roles.value
  }

  /** The path `getRedirectPath()` gives for a user. */
  function RedirectPath(user: Option<User>): (r: string)
    ensures r == LOGIN_PATH <==> user.None? || user.value.roles.None?
    ensures r == SUPERADMIN_PATH <==> IsSuperAdmin(user)
    ensures r == LOGIN_PATH || r == SUPERADMIN_PATH || r == ROOT_PATH || r in ROLE_TO_PATH.Values
  {
    if user.None? || user.value.roles.None? then LOGIN_PATH
    else if ADMIN_ROLE in user.value.roles.value then SUPERADMIN_PATH
    else FirstMapped(user.value.roles.value, ROLE_TO_PATH).GetOr(ROOT_PATH)
  }

  /** `getRedirectPath()` as the source runs it: early returns and a loop
      over the roles in list order. */
  method GetRedirectPath(user: Option<User>) returns (path: string)
    ensures path == RedirectPath(user)
  {
    if user.None? || user.value.roles.None? {
      return LOGIN_PATH;
    }
    var roles := user.value.roles.value;
    if ADMIN_ROLE in roles {
      return SUPERADMIN_PATH;
    }
    var i := 0;
    while i < |roles|
      invariant 0 <= i <= |roles|
      invariant forall j :: 0 <= j < i ==> roles[j] !in ROLE_TO_PATH
    {
      if roles[i] in ROLE_TO_PATH {
        FirstMappedAt(roles, ROLE_TO_PATH, i);
        return ROLE_TO_PATH[roles[i]];
      }
      i := i + 1;
    }
    return ROOT_PATH;
  }

  /** The session state of the authentication provider, together with the
      browser's `token` cookie that it reads and deletes. */
  class AuthProvider {
    var user: Option<User>
    var token: Option<string>
    var loading: bool
    var cookie: Option<string>

    /** The first render: no user, no token, still loading. */
    constructor (storedCookie: Option<string>)
      ensures user == None && token == None && loading && cookie == storedCookie
    {
      user := None;
      token := None;
      loading := true;
      cookie := storedCookie;
    }

    /** The mount effect: adopt a stored token that is still valid, delete
        one that is expired or undecodable, and stop loading either way. */
    method Init(decode: string -> Option<DecodedToken>, now: int)
      modifies this
      ensures !loading
      ensures old(cookie).None? || old(cookie) == Some("") ==>
                user == old(user) && token == old(token) && cookie == old(cookie)
      ensures old(cookie).Some? && old(cookie) != Some("") && IsAuthenticated(old(cookie), decode, now) ==>
                user == Some(UserFromToken(decode(old(cookie).value).value)) && token == old(cookie) && cookie == old(cookie)
      ensures old(cookie).Some? && old(cookie) != Some("") && !IsAuthenticated(old(cookie), decode, now) ==>
                user == None && token == None && cookie == None
    {
      var storedToken := cookie;
      if storedToken.Some? && storedToken.value != "" {
        var decoded := decode(storedToken.value);
        if decoded.Some? && decoded.value.ExpiresAfter(now) {
          user := Some(UserFromToken(decoded.value));
          token := storedToken;
        } else {
          cookie := None;
          user := None;
          token := None;
        }
      }
      loading := false;
    }

    /** `login(newToken)`: adopt the token's user when it decodes (expiry is
        not checked here); leave everything unchanged when it does not. */
    method Login(newToken: string, decode: string -> Option<DecodedToken>)
      modifies this`user, this`token
      ensures decode(newToken).None? ==> user == old(user) && token == old(token)
      ensures decode(newToken).Some? ==> user == Some(UserFromToken(decode(newToken).value)) && token == Some(newToken)
    {
      var decoded := decode(newToken);
      if decoded.Some? {
        user := Some(UserFromToken(decoded.value));
        token := Some(newToken);
      }
    }

    /** `logout()`: delete the cookie, forget user and token, and navigate
        to the login page (returned). */
    method Logout() returns (navigateTo: string)
      modifies this`user, this`token, this`cookie
      ensures user == None && token == None && cookie == None
      ensures navigateTo == LOGIN_PATH
    {
      cookie := None;
      user := None;
      token := None;
      navigateTo := LOGIN_PATH;
    }
  }

  // ---------------------------------------------------------------------
  // Properties

  /** Where `getRedirectPath()` sends each kind of user: no user (or no
      roles) to the login page, a super-admin to the super-admin page,
      otherwise the path of the first mapped role in list order, else root. */
  lemma RedirectPathCases(user: Option<User>)
    ensures user.None? || user.value.roles.None? ==> RedirectPath(user) == LOGIN_PATH
    ensures IsSuperAdmin(user) ==> RedirectPath(user) == SUPERADMIN_PATH
    ensures user.Some? && user.value.roles.Some? && !IsSuperAdmin(user) ==>
              (RedirectPath(user) == ROOT_PATH <==>
                 forall i :: 0 <= i < |user.value.roles.value| ==> user.value.roles.value[i] !in ROLE_TO_PATH)
    ensures user.Some? && user.value.roles.Some? && !IsSuperAdmin(user) && RedirectPath(user) != ROOT_PATH ==>
              exists i :: 0 <= i < |user.value.roles.value| && user.value.roles.value[i] in ROLE_TO_PATH
                          && ROLE_TO_PATH[user.value.roles.value[i]] == RedirectPath(user)
                          && forall j :: 0 <= j < i ==> user.value.roles.value[j] !in ROLE_TO_PATH
  {
    if user.Some? && user.value.roles.Some? && !IsSuperAdmin(user) {
      var r := FirstMapped(user.value.roles.value, ROLE_TO_PATH);
      assert r.Some? ==> r.value != ROOT_PATH;
    }
  }

  /** The home path depends on the order of the roles in the token, not on a
      fixed tenant priority; the super-admin role wins over any team role. */
  lemma RedirectPathScenarios()
    ensures RedirectPath(Some(User("u", "u", Some([RoleBizbizeAdmin.Name()])))) == "/bizbize"
    ensures RedirectPath(Some(User("u", "u", Some([RoleAdmin.Name(), RoleAgcAdmin.Name()])))) == SUPERADMIN_PATH
    ensures RedirectPath(Some(User("u", "u", Some([RoleAgcAdmin.Name(), RoleBizbizeAdmin.Name()])))) == "/agc"
    ensures RedirectPath(Some(User("u", "u", Some([RoleBizbizeAdmin.Name(), RoleAgcAdmin.Name()])))) == "/bizbize"
  {
    FirstMappedAt([RoleBizbizeAdmin.Name()], ROLE_TO_PATH, 0);
    FirstMappedAt([RoleAgcAdmin.Name(), RoleBizbizeAdmin.Name()], ROLE_TO_PATH, 0);
    FirstMappedAt([RoleBizbizeAdmin.Name(), RoleAgcAdmin.Name()], ROLE_TO_PATH, 0);
  }

  /** For the user of a token with a roles claim, the route guard forwards
      a visit to the login page to the same place `getRedirectPath()`
      names. */
  lemma GuardForwardAgreesWithRedirectPath(t: DecodedToken)
    requires t.roles.Some?
    ensures Middleware.DecideAuthenticated(Middleware.LOGIN_PATH, t.roles.value)
            == Middleware.Redirect(RedirectPath(Some(UserFromToken(t))), None)
  {
    assert ROLE_TO_PATH == Middleware.TEAM_PATHS;
  }

  /** At the instant `exp * 1000 == now` the route guard still lets the
      token through (no cookie deletion) while the context already treats
      it as not authenticated, and the mount effect deletes it. */
  lemma ExpiryBoundaryDisagreement(pathname: string, tok: string, decode: string -> Option<DecodedToken>, now: int)
    requires tok != "" && decode(tok).Some? && decode(tok).value.exp.Some?
             && decode(tok).value.exp.value * 1000 == now
    ensures !Middleware.Decide(pathname, Some(tok), decode, now).RedirectAndClearCookie?
    ensures !IsAuthenticated(Some(tok), decode, now)
  {
  }

  /** One second after expiry both sides agree: not authenticated, and the
      guard sends the visitor to the login page with the cookie deleted. */
  lemma ExpiredOneSecondAgo(pathname: string, tok: string, decode: string -> Option<DecodedToken>, now: int)
    requires tok != "" && decode(tok).Some? && decode(tok).value.exp.Some?
             && decode(tok).value.exp.value * 1000 == now - 1000
    ensures Middleware.Decide(pathname, Some(tok), decode, now) == Middleware.RedirectAndClearCookie(Middleware.LOGIN_PATH)
    ensures !IsAuthenticated(Some(tok), decode, now)
  {
  }

  /** A token that `Init` adopts is one the route guard also accepts: the
      guard never deletes it and never sends its holder back to the login
      page; it either lets the request through or forwards it elsewhere. */
  lemma AdoptedTokenPassesGuard(pathname: string, tok: string, decode: string -> Option<DecodedToken>, now: int)
    requires IsAuthenticated(Some(tok), decode, now)
    ensures Middleware.Decide(pathname, Some(tok), decode, now)
            == Middleware.DecideAuthenticated(pathname, decode(tok).value.roles.GetOr([]))
    ensures var d := Middleware.Decide(pathname, Some(tok), decode, now);
            d.Next? || (d.Redirect? && d.path != Middleware.LOGIN_PATH && d.redirectParam.None?)
  {
  }

  /** A token without an `exp` claim (or one that JavaScript turns into
      `NaN`) never expires for the route guard, which lets it through at every instant, while the context never
      counts it as authenticated (and the mount effect deletes it). */
  lemma MissingExpiryDisagreement(pathname: string, tok: string, decode: string -> Option<DecodedToken>, now: int)
    requires tok != "" && decode(tok).Some? && decode(tok).value.exp.None?
    ensures Middleware.Decide(pathname, Some(tok), decode, now)
            == Middleware.DecideAuthenticated(pathname, decode(tok).value.roles.GetOr([]))
    ensures !IsAuthenticated(Some(tok), decode, now)
  {
  }

  /** For a token with no roles claim the two sides disagree: the route
      guard forwards a visit to the login page to the root, while
      `getRedirectPath()` names the login page itself. */
  lemma NoRolesClaimDisagreement(t: DecodedToken)
    requires t.roles.None?
    ensures Middleware.DecideAuthenticated(Middleware.LOGIN_PATH, t.roles.GetOr([])) == Middleware.Redirect(ROOT_PATH, None)
    ensures RedirectPath(Some(UserFromToken(t))) == LOGIN_PATH
  {
    assert Middleware.UserTeamPath([]) == None;
  }
}
