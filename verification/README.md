# Super-admin panel: a Dafny model of its decision and list logic

The super-admin panel is a Next.js front-end for the Skylab club's REST
back-end. A super-admin manages user accounts and roles. Team admins
manage the events, staff, announcements and, for AGC, the seasons and
competitors of their own team. Almost every action is a REST call. Around
those calls sit a few pieces of real logic, and this project models them
in Dafny and proves what they promise:

- the **route guard** that runs before every page;
- the **session context**: who is signed in, role checks, the home page;
- the **wire-date helpers** that go between `dd-MM-yyyy HH:mm` and a
  datetime-local value;
- the **sidebar**: which entries show, which is highlighted, which submenu
  is open;
- the **role editor**: which roles are grantable, and the grant/revoke
  handler;
- the two **season-membership screens**: addable competitors, the add
  guard, removal, and the refresh hand-off;
- the **forms** for points, seasons, competitors and users: field rules,
  payloads, and when the parent's callbacks run.

How the source's parts are represented:

- Network calls are an `Outcome` parameter (`Success` or `Failure`).
  Handlers return the request they would send, so "nothing is sent" can be
  stated.
- The JWT decoder is a parameter `decode: string -> Option<DecodedToken>`.
  `None` stands for the decoder throwing.
- The clock is a parameter `now`, in milliseconds.
- `window.confirm` is a boolean parameter.
- The browser's `token` cookie is a field of the session class.
- Components whose state changes in place are classes with `modifies`
  clauses: the session provider, the sidebar, the role editor, the two
  membership screens and the new-user modal.
- Pure validation and payload code is functions.
- Loops in the source are methods with loop invariants, each proved equal
  to a specification function. These are the guard's role loops and
  `getRedirectPath`.

Modules: `Common` (option, outcome, order-preserving filter, first-match
search), `Types` (roles, token claims, users, competitors, seasons),
`Middleware`, `AuthContext`, `DateUtils`, `Sidebar`, `EditUserRoles`,
`Membership` (shared by the two membership screens),
`SeasonCompetitorsModal`, `SeasonCompetitorManager`, `AddPoints`,
`SeasonForm`, `CompetitorForm` and `AddUser`.

Points worth knowing about the code:

- The guard and `getRedirectPath` pick the home path of the first team
  role **in the order the token lists the roles**. The same two roles in
  the other order give a different home.
- The guard treats a token as expired only when `exp * 1000 < now`. The
  session context accepts a token only when `exp * 1000 > now`. So at
  `exp * 1000 == now` the two disagree (`AuthContext.ExpiryBoundaryDisagreement`).
- A token without an `exp` claim never expires for the guard, because
  `undefined * 1000` is `NaN` and every comparison with `NaN` is false. The
  session context never accepts it, for the same reason
  (`AuthContext.MissingExpiryDisagreement`). A `null` claim is different:
  `null * 1000` is 0, so the guard treats the token as expired.
- For a token with no `roles` claim, the guard forwards the login page to
  `/`, while `getRedirectPath` answers `/login`
  (`AuthContext.NoRolesClaimDisagreement`).
- The sidebar rebuilds its menu array on every render, and that array is a
  dependency of the path effect. So the effect runs again after every
  click, and on a page under a submenu that submenu cannot be folded
  (`Sidebar.SidebarState.Click`).
- Adding a competitor to a season does not append to the local list. It
  only asks the parent to refresh.
- The membership modal's removal sends no request; its API call is
  commented out. It drops every local entry with that id.
- The season page's manager sends the DELETE and leaves its local list to
  the parent's refresh.

## Model

| member | source | states |
|---|---|---|
| Types.Role.Rank | src/types/index.ts:31-39 | every role sits at its own position of `ALL_ROLES` |
| Types.RoleNamesDistinct | src/types/index.ts:31-39 | two roles have the same wire name only if they are the same role, and every role is listed in `ALL_ROLES` |
| Types.AllRolesListed | src/types/index.ts:31-39 | `ALL_ROLES` contains every role |
| Middleware.Decide | src/middleware.ts:15-115 | a cookie deletion only follows a present, non-empty token and always goes to `/login`; the guard redirects to `/login` exactly when there is no token and the path is not `/login`; a `redirect` parameter is only ever set to the requested path, on that login redirect |
| Middleware.DecideAuthenticated | src/middleware.ts:51-114 | for a good token the cookie is never deleted, no `redirect` parameter is set, and a redirect never goes to `/login`: only to `/superadmin`, `/403`, `/` or one of the three team paths |
| Middleware.UserTeamPathIsSection | src/middleware.ts:81-87 | the team path of a user's first team role is one of `/bizbize`, `/gecekodu`, `/agc` |
| Middleware.FindTeamPath | src/middleware.ts:81-87 | the role loop with `break` returns the team path of the first role, in token order, that has one; that path is one of the three team paths |
| Middleware.RunMiddleware | src/middleware.ts:15-115 | the guard run step by step, with early returns and its loops, decides exactly what the decision function `Decide` decides |
| Middleware.NoTokenGoesToLogin | src/middleware.ts:20-29 | with no token (or an empty one) the login page passes and any other path redirects to the login page, carrying the requested path as `redirect` |
| Middleware.ClearCookieIffBadToken | src/middleware.ts:31-49 | for a present token the cookie is deleted exactly when decoding fails or `exp * 1000 < now`, and the redirect then goes to the login page; `exp * 1000 == now` passes |
| Middleware.LoginPageForwardsHome | src/middleware.ts:55-69 | a signed-in visit to the login page goes to `/superadmin` for the admin role, else to the path of the first mapped role in token order, else to `/` |
| Middleware.ForwardingFollowsTokenOrder | src/middleware.ts:61-66 | roles listed as AGC then BizBize forward to `/agc`; listed the other way round, the root forwards to `/bizbize` |
| Middleware.TeamPathWithoutAccessIsForbidden | src/middleware.ts:72-92 | a non-super-admin on a team path with no role whose prefix covers it always gets `/403`; the second guard at line 89 cannot be false there |
| Middleware.SuperAdminNeverForbidden | src/middleware.ts:53-114 | for a super-admin the guard's only answers are to let the request through or to redirect it to `/superadmin` |
| Middleware.OwnTeamPrefixIsGranted | src/middleware.ts:72-78 | a path that starts with the prefix of one of the user's team roles is a team path and is let through |
| Middleware.AgcPrefixIsTeamPath | src/middleware.ts:72 | any path with the plain string prefix `/agc` counts as a team path |
| Middleware.SuperadminGateIsExact | src/middleware.ts:109-112 | a non-super-admin gets `/403` for exactly `/superadmin`, while every longer path that starts with `/superadmin` is let through, whatever the roles |
| Middleware.RootForwarding | src/middleware.ts:95-107 | a signed-in visit to `/` goes to `/superadmin`, else to the first mapped team path, else proceeds |
| Middleware.MissingRolesAreEmpty | src/middleware.ts:52 | a valid token without a roles claim is decided as a token with no roles |
| AuthContext.UserFromToken | src/contexts/AuthContext.tsx:34-37 | the user's `id` and `email` are both the token's subject; the user is a super-admin exactly when the token's roles list `ROLE_ADMIN`, and passes a role check exactly when the token lists that role or `ROLE_ADMIN` |
| AuthContext.IsAuthenticated | src/contexts/AuthContext.tsx:73-81 | false with no token or when decoding fails; otherwise true exactly when `exp * 1000 > now` |
| AuthContext.HasRole | src/contexts/AuthContext.tsx:83-88 | true for every role when the user holds `ROLE_ADMIN`; otherwise true exactly when the role is listed; false with no user |
| AuthContext.RedirectPath | src/contexts/AuthContext.tsx:90-110 | `/login` exactly when there is no user or no roles; `/superadmin` exactly for a super-admin; otherwise `/` or one of the role table's paths |
| AuthContext.GetRedirectPath | src/contexts/AuthContext.tsx:90-110 | the early returns and the role loop compute exactly `RedirectPath` |
| AuthContext.RedirectPathCases | src/contexts/AuthContext.tsx:90-110 | `/login` with no user or no roles; `/superadmin` for the admin role; otherwise `/` exactly when no role maps, else the path of the first mapped role in list order |
| AuthContext.RedirectPathScenarios | src/contexts/AuthContext.tsx:97-107 | concrete role lists: the admin role wins, and the first mapped role in list order decides |
| AuthContext.GuardForwardAgreesWithRedirectPath | src/contexts/AuthContext.tsx:90-110 | for a token with roles, the guard's forward from the login page equals `getRedirectPath` of the user built from that token |
| AuthContext.AuthProvider.constructor | src/contexts/AuthContext.tsx:23-25 | the session starts with no user, no token, loading |
| AuthContext.AuthProvider.Init | src/contexts/AuthContext.tsx:28-52 | a valid stored token sets the user (`id` = `email` = subject, the token's roles) and the token; an expired or undecodable one deletes the cookie and clears user and token; no cookie changes nothing; loading ends false |
| AuthContext.AuthProvider.Login | src/contexts/AuthContext.tsx:54-64 | a decodable token sets user and token, without an expiry check; an undecodable one changes nothing |
| AuthContext.AuthProvider.Logout | src/contexts/AuthContext.tsx:66-71 | cookie, user and token are cleared and the navigation target is `/login` |
| AuthContext.ExpiryBoundaryDisagreement | src/contexts/AuthContext.tsx:73-81 | at `exp * 1000 == now` the guard keeps the cookie while the context reports not authenticated |
| AuthContext.ExpiredOneSecondAgo | src/middleware.ts:34-41 | a token one second past expiry is refused by both, and the guard deletes its cookie |
| AuthContext.AdoptedTokenPassesGuard | src/contexts/AuthContext.tsx:32-37 | a token the context accepts is decided as a good token by the guard: the request goes through, or is forwarded to a page other than `/login` without a `redirect` parameter |
| AuthContext.MissingExpiryDisagreement | src/contexts/AuthContext.tsx:73-81 | a token without `exp` (or with one that becomes `NaN`, such as a non-numeric string) passes the guard's expiry check at every instant, while the context never reports it authenticated |
| AuthContext.NoRolesClaimDisagreement | src/contexts/AuthContext.tsx:90-91 | for a token without a roles claim the guard forwards `/login` to `/`, while `getRedirectPath` answers `/login` |
| DateUtils.ParseApiDateTimeToInput | src/lib/utils.ts:21-27 | "" for the empty string and for input with no `dd-MM-yyyy HH:mm` digit pattern anywhere; otherwise the groups of the leftmost match rearranged as `yyyy-MM-ddTHH:mm` |
| DateUtils.ParseWireLayout | src/lib/utils.ts:21-27 | any five digit groups laid out as `dd-MM-yyyy HH:mm` match at the start, and parsing rearranges them into `yyyy-MM-ddTHH:mm` unchanged |
| DateUtils.FormatDateTimeForApi | src/lib/utils.ts:6-14 | for in-range day, month, hours and minutes and any year, negative ones included: `dd-MM-<year> HH:mm` with the separators in place, the day, the 1-based month, the hours and the minutes as two digits that read back as those fields, and the year printed unpadded in the middle |
| DateUtils.FormatShape | src/lib/utils.ts:6-14 | for in-range fields with a 4-digit year the result has 16 characters, matches the pattern, and each digit group reads back as its field (the month printed 1-based) |
| DateUtils.FormatThenParse | src/lib/utils.ts:6-27 | parsing a formatted date gives the datetime-local value of the same fields |
| DateUtils.ParseThenFormat | src/lib/utils.ts:6-27 | for a well-formed, in-range wire string, formatting the fields read back from the parse result reproduces the string |
| DateUtils.ParseIgnoresSurroundingText | src/lib/utils.ts:23-26 | when no match starts inside the text before a match, the text before and after it is ignored: the whole parses as the matched part alone |
| DateUtils.ParseHasNoRangeCheck | src/lib/utils.ts:23-26 | `99-99-9999 99:99` is accepted and rearranged |
| DateUtils.ParseRejectsOtherSeparators | src/lib/utils.ts:23-24 | a date with `/` separators yields "" |
| Sidebar.HomeHref | src/components/Sidebar.tsx:28-32 | the home link is `/superadmin` exactly when the user holds `ROLE_ADMIN`, else `/` |
| Sidebar.NavItems | src/components/Sidebar.tsx:31-67 | four entries: home first, linking to the home path, with no role list and no submenu; then three team sections, each restricted to exactly one team role whose sub-pages all lie under the path the route guard grants that role; none is admin-only |
| Sidebar.IsAccessible | src/components/Sidebar.tsx:90-96 | an admin-only entry is shown exactly to a super-admin; a super-admin sees every entry that does not have an empty role list; with no user only unrestricted entries show |
| Sidebar.AccessibleNavItems | src/components/Sidebar.tsx:90-96 | an entry is kept exactly when it is in the menu and passes the visibility rule; the result is no longer than the menu |
| Sidebar.IsActive | src/components/Sidebar.tsx:73-81 | a parent is active exactly when some sub-item href prefixes the path; otherwise an absent or empty href is never active, `/` and `/superadmin` match only by equality, and other hrefs match by prefix |
| Sidebar.ActiveParent | src/components/Sidebar.tsx:84 | the first entry, in menu order, that has a sub-item whose href prefixes the path; `None` exactly when no entry has one |
| Sidebar.SidebarState.constructor | src/components/Sidebar.tsx:29 | no submenu is open at first |
| Sidebar.SidebarState.ToggleSubMenu | src/components/Sidebar.tsx:69-71 | toggling the open submenu closes it; toggling any other opens it in place of the previous one |
| Sidebar.SidebarState.SyncWithPathname | src/components/Sidebar.tsx:83-88 | when the path lies under some parent's sub-item, the first such parent becomes the open submenu; otherwise the state is unchanged |
| Sidebar.SidebarState.Click | src/components/Sidebar.tsx:69-88 | a click toggles the submenu and the path effect then runs again: on a page under a submenu that submenu is open whatever was clicked; elsewhere the click toggles |
| Sidebar.SidebarState.ClickOnAgcPage | src/components/Sidebar.tsx:83-88 | on a path under `/agc/seasons`, clicking the AGC header leaves the AGC submenu open |
| Sidebar.VisibilityRules | src/components/Sidebar.tsx:90-96 | an entry without roles is always shown; one with roles is shown exactly when some listed role passes `hasRole`; an admin-only one exactly for a super-admin |
| Sidebar.SingleRoleItem | src/components/Sidebar.tsx:95 | an entry restricted to one role is shown exactly when `hasRole` passes for that role |
| Sidebar.VisibleMenu | src/components/Sidebar.tsx:31-96 | the visible menu is the home entry followed by each team section whose role passes `hasRole`, in menu order |
| Sidebar.SuperAdminMenu | src/components/Sidebar.tsx:90-96 | a super-admin sees the whole menu |
| Sidebar.AgcAdminRoles | src/contexts/AuthContext.tsx:83-88 | a user holding only the AGC role is not a super-admin and passes only the AGC role check |
| Sidebar.AgcAdminMenu | src/components/Sidebar.tsx:31-96 | that user sees the home entry and the AGC section only |
| Sidebar.AgcPageUnfoldsAgc | src/components/Sidebar.tsx:83-88 | on a path under `/agc/seasons` the active parent is the AGC section |
| EditUserRoles.AvailableRolesToAdd | src/components/admin/EditUserRolesModal.tsx:53 | a role is offered exactly when the user does not hold it |
| EditUserRoles.AfterRoleChange | src/components/admin/EditUserRolesModal.tsx:36-40 | a grant appends the role at the end and keeps the rest; a revoke removes every occurrence of the role and keeps every other role as often as before |
| EditUserRoles.RevokeKeepsOrder | src/components/admin/EditUserRolesModal.tsx:38-39 | revoking from a concatenation revokes from each part, so the remaining roles keep their order |
| EditUserRoles.RoleEditor.CanRemove | src/components/admin/EditUserRolesModal.tsx:76 | the revoke control is enabled exactly when nothing is in flight and the role is not `ROLE_USER` |
| EditUserRoles.RoleEditor.constructor | src/components/admin/EditUserRolesModal.tsx:19-20 | the editor starts with an empty role list and not loading |
| EditUserRoles.RoleEditor.SyncUser | src/components/admin/EditUserRolesModal.tsx:22-26 | a selected user's roles replace the list; no user leaves it |
| EditUserRoles.RoleEditor.HandleRoleChange | src/components/admin/EditUserRolesModal.tsx:28-49 | with no user nothing is sent or changed; otherwise the add or remove request for that user and role is sent, loading ends false, and the list changes by `AfterRoleChange` and the parent is notified only on success |
| EditUserRoles.AvailableRolesInOrder | src/components/admin/EditUserRolesModal.tsx:53 | the offered roles come in `ALL_ROLES` order, without repeats |
| EditUserRoles.AvailableRolesExtremes | src/components/admin/EditUserRolesModal.tsx:53 | a user with no roles is offered all of `ALL_ROLES`; a user holding every role is offered none |
| EditUserRoles.GrantThenRevoke | src/components/admin/EditUserRolesModal.tsx:36-40 | granting a role the user lacks and then revoking it restores the list |
| EditUserRoles.RevokeIdempotent | src/components/admin/EditUserRolesModal.tsx:38-39 | revoking an absent role changes nothing, and revoking twice equals revoking once |
| EditUserRoles.GrantAndRevokeUpdateOffer | src/components/admin/EditUserRolesModal.tsx:36-53 | after a grant the role is no longer offered; after a revoke it is offered again |
| EditUserRoles.UserRoleNeverRemovable | src/components/admin/EditUserRolesModal.tsx:76 | the revoke control for `ROLE_USER` is always disabled |
| Membership.AddableCompetitors | src/components/agc/ManageSeasonCompetitorsModal.tsx:45-47 | a system competitor is addable exactly when no current member has its id |
| Membership.SeasonMembers | src/components/agc/ManageSeasonCompetitorsModal.tsx:38 | a season's listed competitors, or the empty list when it lists none |
| Membership.RemoveById | src/components/agc/ManageSeasonCompetitorsModal.tsx:81 | no entry with the id remains, and every other entry is kept as often as before |
| Membership.RemoveByIdKeepsOrder | src/components/agc/ManageSeasonCompetitorsModal.tsx:81 | removing from a concatenation removes from each part, so the remaining members keep their order |
| Membership.AddablePartitionsSystem | src/components/agc/AgcSeasonCompetitorManager.tsx:35-37 | every system competitor is either a member by id or addable, never both |
| Membership.AddableDisjointFromMembers | src/components/agc/AgcSeasonCompetitorManager.tsx:35-37 | no addable competitor shares an id with a member |
| Membership.AddableKeepsOrder | src/components/agc/ManageSeasonCompetitorsModal.tsx:45-47 | the addable list of a concatenation is the concatenation of the addable lists, so system order is kept |
| Membership.NoMembersAllAddable | src/components/agc/ManageSeasonCompetitorsModal.tsx:45-47 | with no members every system competitor is addable, in order |
| Membership.RemovedBecomesAddable | src/components/agc/ManageSeasonCompetitorsModal.tsx:45-81 | after a local removal by id, every system competitor with that id is addable |
| Membership.RemoveByIdIdempotent | src/components/agc/ManageSeasonCompetitorsModal.tsx:81 | removing an absent id changes nothing, and removing twice equals removing once |
| SeasonCompetitorsModal.ManageSeasonCompetitors.constructor | src/components/agc/ManageSeasonCompetitorsModal.tsx:27-32 | empty list, no selection, not submitting, points sub-modal closed |
| SeasonCompetitorsModal.ManageSeasonCompetitors.AddEnabled | src/components/agc/ManageSeasonCompetitorsModal.tsx:132 | the add button is disabled without a selection or while submitting, so a click on it never reaches the handler's missing-selection branch |
| SeasonCompetitorsModal.ManageSeasonCompetitors.SyncOpen | src/components/agc/ManageSeasonCompetitorsModal.tsx:34-43 | opening with a season loads its members (or []); closing empties the list; the selection is reset either way |
| SeasonCompetitorsModal.ManageSeasonCompetitors.Select | src/components/agc/ManageSeasonCompetitorsModal.tsx:119 | the selection becomes the chosen option's value |
| SeasonCompetitorsModal.ManageSeasonCompetitors.HandleAdd | src/components/agc/ManageSeasonCompetitorsModal.tsx:49-66 | with no season or no selection an error is reported, nothing is sent and the submitting flag is left as it was; otherwise the add request is sent, submitting ends false, and on success the parent refreshes and the selection clears; the local list never changes |
| SeasonCompetitorsModal.ManageSeasonCompetitors.HandleRemove | src/components/agc/ManageSeasonCompetitorsModal.tsx:68-90 | with no season or a declined confirmation nothing changes; a confirmed removal drops every entry with the id and notifies the parent, with no request, and submitting ends false |
| SeasonCompetitorsModal.ManageSeasonCompetitors.OpenAddPoints | src/components/agc/ManageSeasonCompetitorsModal.tsx:92-95 | the points sub-modal opens for that member |
| SeasonCompetitorsModal.ManageSeasonCompetitors.PointsAdded | src/components/agc/ManageSeasonCompetitorsModal.tsx:97-101 | the parent refreshes and the points sub-modal closes |
| SeasonCompetitorsModal.ManageSeasonCompetitors.ClosePoints | src/components/agc/ManageSeasonCompetitorsModal.tsx:194-197 | the points sub-modal closes and forgets its member |
| SeasonCompetitorsModal.RemoveThenOffer | src/components/agc/ManageSeasonCompetitorsModal.tsx:45-47 | right after a confirmed removal the removed competitor is offered for adding again |
| SeasonCompetitorManager.AgcSeasonCompetitorManager.constructor | src/components/agc/AgcSeasonCompetitorManager.tsx:22-28 | empty list, no selection, not submitting, both sub-modals closed |
| SeasonCompetitorManager.AgcSeasonCompetitorManager.SyncSeason | src/components/agc/AgcSeasonCompetitorManager.tsx:30-33 | the season's members (or []) replace the list and the selection clears |
| SeasonCompetitorManager.AgcSeasonCompetitorManager.Select | src/components/agc/AgcSeasonCompetitorManager.tsx:114 | the selection becomes the chosen option's value |
| SeasonCompetitorManager.AgcSeasonCompetitorManager.HandleAdd | src/components/agc/AgcSeasonCompetitorManager.tsx:39-56 | with no selection an error is reported and nothing is sent; otherwise the add request is sent, and on success the parent refreshes and the selection clears; the local list never changes |
| SeasonCompetitorManager.AgcSeasonCompetitorManager.HandleRemove | src/components/agc/AgcSeasonCompetitorManager.tsx:58-74 | a declined confirmation does nothing; a confirmed one sends the DELETE request and notifies the parent exactly on success; the local list is unchanged and submitting ends false |
| SeasonCompetitorManager.AgcSeasonCompetitorManager.OpenAddPoints | src/components/agc/AgcSeasonCompetitorManager.tsx:76-79 | the points modal opens for that member |
| SeasonCompetitorManager.AgcSeasonCompetitorManager.PointsAdded | src/components/agc/AgcSeasonCompetitorManager.tsx:81-85 | the parent refreshes, the points modal closes and its member is cleared |
| SeasonCompetitorManager.AgcSeasonCompetitorManager.ClosePoints | src/components/agc/AgcSeasonCompetitorManager.tsx:196-199 | the points modal closes and forgets its member |
| SeasonCompetitorManager.AgcSeasonCompetitorManager.OpenAddSystemCompetitor | src/components/agc/AgcSeasonCompetitorManager.tsx:102 | the new-competitor modal opens |
| SeasonCompetitorManager.AgcSeasonCompetitorManager.SystemCompetitorAdded | src/components/agc/AgcSeasonCompetitorManager.tsx:87-90 | the parent refreshes and the new-competitor modal closes |
| AddPoints.ValidatePoints | src/components/agc/AddPointsToCompetitorModal.tsx:64-68 | a delta is accepted exactly when present and non-zero; missing means "required", zero means "must differ from 0" |
| AddPoints.OnSubmit | src/components/agc/AddPointsToCompetitorModal.tsx:35-50 | no competitor, no effect; otherwise the request carries the competitor's id and the delta, and the callbacks run, points-added then close, exactly on success |
| AddPoints.HandleSubmit | src/components/agc/AddPointsToCompetitorModal.tsx:35-68 | the form rejects exactly an empty or zero delta, with that field's error; otherwise the handler runs, sends a request exactly when there is a competitor, and sends the delta as entered |
| AddPoints.FormAfterOpenChange | src/components/agc/AddPointsToCompetitorModal.tsx:29-33 | closing the modal clears the delta; while open it is kept |
| AddPoints.RequestIffValidDelta | src/components/agc/AddPointsToCompetitorModal.tsx:35-68 | a request is sent exactly when there is a competitor and a present, non-zero delta, and it carries that delta unchanged |
| AddPoints.ZeroDeltaNeverSent | src/components/agc/AddPointsToCompetitorModal.tsx:65-67 | a zero delta and an empty field are rejected before the handler runs |
| AddPoints.RequestIgnoresCurrentTotal | src/components/agc/AddPointsToCompetitorModal.tsx:42 | the competitor's current total does not influence the submission: no local arithmetic |
| AddPoints.CallbacksOnlyAfterSuccess | src/components/agc/AddPointsToCompetitorModal.tsx:44-49 | callbacks run only after a request that succeeded, the refresh first |
| SeasonForm.EndAfterStart | src/components/agc/AddEditAgcSeasonModal.tsx:126 | false when the start is empty; otherwise true exactly when the end's instant is after the start's |
| SeasonForm.Validate | src/components/agc/AddEditAgcSeasonModal.tsx:107-127 | name and start date are required; the end date is required and must be strictly after the start, and a filled end that is not after the start gets the ordering error |
| SeasonForm.InitialForm | src/components/agc/AddEditAgcSeasonModal.tsx:39-58 | a new season starts blank and active; an edited one starts from its name and active flag, and an empty API date stays empty |
| SeasonForm.BuildRequest | src/components/agc/AddEditAgcSeasonModal.tsx:69-92 | editing sends an update that carries the season's id; adding sends tenant `AGC` and no competitor ids; both carry the name, the active flag and the API-formatted dates |
| SeasonForm.CallbacksAfter | src/components/agc/AddEditAgcSeasonModal.tsx:93-98 | saved then close, only on success |
| SeasonForm.EndAfterStartIsCalendarOrder | src/components/agc/AddEditAgcSeasonModal.tsx:126 | on calendar dates the end-date rule is exactly "the end day comes after the start day" by year, month and day |
| SeasonForm.SameOrEarlierDayRefused | src/components/agc/AddEditAgcSeasonModal.tsx:124-127 | an end on or before the start day is refused with the end-date error |
| SeasonForm.ValidIff | src/components/agc/AddEditAgcSeasonModal.tsx:107-127 | a form is accepted exactly when the name and both dates are filled and the end is after the start |
| SeasonForm.BlankFormRefused | src/components/agc/AddEditAgcSeasonModal.tsx:49-54 | a new-season form as it opens fails all three required rules |
| CompetitorForm.Defaults | src/components/agc/AddAgcCompetitorModal.tsx:29-36 | name '', points 0, count 0, active |
| CompetitorForm.CountError | src/components/agc/AddAgcCompetitorModal.tsx:81-97 | a count passes exactly when present and at least 0; a missing one is "required", a negative one "must not be negative" |
| CompetitorForm.Validate | src/components/agc/AddAgcCompetitorModal.tsx:72-97 | the name is required; points and count are each required and at least 0 |
| CompetitorForm.Payload | src/components/agc/AddAgcCompetitorModal.tsx:50-53 | the payload is the form's fields plus tenant `AGC` |
| CompetitorForm.CallbacksAfter | src/components/agc/AddAgcCompetitorModal.tsx:55-63 | competitor-added then close, only on success |
| CompetitorForm.FormAfterOpenChange | src/components/agc/AddAgcCompetitorModal.tsx:38-47 | opening the modal restores the defaults |
| CompetitorForm.ValidIff | src/components/agc/AddAgcCompetitorModal.tsx:72-97 | a form is accepted exactly when the name is filled and both counts are present and non-negative |
| CompetitorForm.DefaultsNeedOnlyAName | src/components/agc/AddAgcCompetitorModal.tsx:30-35 | the defaults fail only the name rule; filling a name makes them valid |
| CompetitorForm.PayloadCountsNonNegative | src/components/agc/AddAgcCompetitorModal.tsx:81-97 | a posted payload never carries a negative count |
| AddUser.MatchesEmailPattern | src/components/admin/AddUserModal.tsx:81 | a matching address has at least six characters, ends in two letters, contains `@` and `.`, and has no space |
| AddUser.IsValidEmail | src/components/admin/AddUserModal.tsx:81 | an accepted address has at least six characters, ends in two letters, contains `@` and `.`, has no space, and holds exactly one `@`, not at the start |
| AddUser.EmailCheckMatchesPattern | src/components/admin/AddUserModal.tsx:81 | the decision agrees, on every string, with the pattern read as "some split into local part, `@`, domain, `.`, two or more letters", case-insensitively |
| AddUser.EmailCheckSound | src/components/admin/AddUserModal.tsx:81 | every address the decision accepts matches the pattern |
| AddUser.EmailCheckComplete | src/components/admin/AddUserModal.tsx:81 | every address matching the pattern is accepted: the pattern leaves room for no other `@` and no later `.` |
| AddUser.MixedCaseAccepted | src/components/admin/AddUserModal.tsx:81 | letter case does not matter |
| AddUser.OneLetterEndingRefused | src/components/admin/AddUserModal.tsx:81 | a one-letter ending after the last dot is refused |
| AddUser.SecondAtRefused | src/components/admin/AddUserModal.tsx:81 | a second `@` is refused |
| AddUser.Validate | src/components/admin/AddUserModal.tsx:71-92 | the username is required; the email is required and must match; the password is required and at least 6 characters |
| AddUser.PasswordRule | src/components/admin/AddUserModal.tsx:91 | a password passes exactly from six characters on; one to five characters give the length error |
| AddUser.AddUserModal.constructor | src/components/admin/AddUserModal.tsx:24-25 | empty fields, not loading |
| AddUser.AddUserModal.OnSubmit | src/components/admin/AddUserModal.tsx:27-53 | a missing password reports an error and sends nothing; otherwise exactly `{username, email, password}` is posted; on success user-added and close run and the form is emptied; loading ends false in every case |
| AddUser.AddUserModal.HandleSubmit | src/components/admin/AddUserModal.tsx:66-92 | the field rules run first: an invalid form sends nothing and changes nothing; a valid one always posts and ends not loading; on success user-added then close run and the form is emptied, on failure no callback runs and the fields are kept |

## Left out

- JWT decoding (`jwt-decode`) is a parameter; a token it cannot decode is `None`. The decoder does not check the claims, so `exp` is modelled as the number JavaScript makes of it: `null` and `[]` are `Some(0)` (expired for the guard), `true` is `Some(1)`, a numeric string is `Some` of its number. `None` is a missing `exp` or one whose `exp * 1000` is `NaN` (a non-numeric string, an object); both sides then compare `NaN`, which is false. A fractional `exp` is not modelled.
- The clock (`Date.now()`), the cookie libraries and the Next.js router are parameters or recorded outputs. The redirect URL's origin is left out; only its path and its `redirect` parameter are kept.
- Every REST call is left out except its request and whether it resolved (`Outcome`). Toast texts, console output and server error messages are left out; whether an error toast is shown is the `reportedError` result.
- Rendering, styling and the UI primitives are left out. So are the modal `isOpen` gates that decide only whether anything is drawn.
- Middleware.Decide, AuthContext.RedirectPath and AuthContext.GetRedirectPath: a role name such as `constructor`, which a JavaScript object lookup would find on the prototype, is not modelled; both role tables are plain maps. In the source, `getRedirectPath` would return Object's constructor function for such a role (src/contexts/AuthContext.tsx:104-105).
- DateUtils.FormatDateTimeForApi works on the calendar fields a JavaScript `Date` returns in local time. Turning a `Date` or a date string into those fields (time zones, daylight saving, invalid dates) is not modelled.
- `formatDateToDdMmYyyy` and `parseApiTimestampToYyyyMmDd` are not part of this model; the season form takes them as parameters (`toApiDate`, `readApiDate`).
- SeasonForm.EndAfterStart compares `TimeKey`, a key that grows with the day, in place of the JavaScript timestamps of the two date inputs. Its connection to the calendar order is proved for calendar dates only. Impossible days such as 31 February are not excluded.
- Number inputs are `Option<int>`: empty or an integer. `NaN`, fractions and exponent notation from a number field are not modelled.
- String lengths count characters, not UTF-16 code units, so a password with characters outside the Basic Multilingual Plane is measured differently.
- AddUser.Validate: the browser's own check of the `type="email"` input (src/components/admin/AddUserModal.tsx:77; the form has no `noValidate`), which can block a submission before the pattern runs, and the browser's trimming of that input's value are not modelled.
- The email pattern is modelled on ASCII letters. This matches a case-insensitive JavaScript regular expression without the `u` flag.
- Sidebar.SidebarState.ToggleSubMenu states the toggle on its own. The menu array is rebuilt on every render (src/components/Sidebar.tsx:31) and is listed in the path effect's dependencies (src/components/Sidebar.tsx:88), so after a click the effect runs again. What a click does as a whole is `Sidebar.SidebarState.Click`. React's render scheduling itself is not modelled.
- Sidebar: labels, icons and the signed-in user's caption are presentation. A missing `pathname` (`null` during pre-rendering) is not modelled.
- Async interleaving is not modelled: double submits, out-of-order responses, and state updates that React batches or applies after unmount. Each handler runs to completion as one step.
- The photo-upload modals, the event and announcement forms, the table components and the page components are not part of this model.
