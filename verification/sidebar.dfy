/** The dashboard's navigation sidebar: which entries a user sees, which
    entry is highlighted for the current path, and which single submenu is
    unfolded. */
module Sidebar {
  import opened Common
  import opened Types
  import AuthContext
  import Middleware

  /** A navigation entry. Labels and icons are presentation and are left
      out; a submenu is given by the hrefs of its sub-items. */
  datatype NavItem = NavItem(id: string, href: Option<string>, roles: Option<seq<string>>,
                             adminOnly: bool, subItems: Option<seq<string>>)

  const ROOT_PATH: string := "/"
  const SUPERADMIN_PATH: string := "/superadmin"

  /** The home link: the super-admin page for a super-admin, else the root. */
  function HomeHref(user: Option<User>): (href: string)
    ensures href == SUPERADMIN_PATH <==> AuthContext.IsSuperAdmin(user)
    ensures href == ROOT_PATH <==> !AuthContext.IsSuperAdmin(user)
  {
    if AuthContext.IsSuperAdmin(user) then SUPERADMIN_PATH else ROOT_PATH
  }

  /** A team section: no link of its own, restricted to exactly one role
      that the route guard maps to a team path, and a submenu whose pages
      all lie under that path. */
  predicate IsTeamSection(item: NavItem) {
    item.href.None? && !item.adminOnly && item.roles.Some? && |item.roles.value| == 1
    && item.roles.value[0] in Middleware.TEAM_PATHS && item.subItems.Some?
    && forall k :: 0 <= k < |item.subItems.value| ==>
         StartsWith(item.subItems.value[k], Middleware.TEAM_PATHS[item.roles.value[0]] + "/")
  }

  const BIZBIZE_SECTION: NavItem :=
    NavItem("bizbize", None, Some([RoleBizbizeAdmin.Name()]), false,
            Some(["/bizbize/events", "/bizbize/staff", "/bizbize/announcements"]))
  const GECEKODU_SECTION: NavItem :=
    NavItem("gecekodu", None, Some([RoleGecekoduAdmin.Name()]), false,
            Some(["/gecekodu/events", "/gecekodu/staff", "/gecekodu/announcements"]))
  const AGC_SECTION: NavItem :=
    NavItem("agc", None, Some([RoleAgcAdmin.Name()]), false,
            Some(["/agc/events", "/agc/staff", "/agc/announcements", "/agc/seasons"]))

  lemma BizbizeSectionIsTeamSection()
    ensures IsTeamSection(BIZBIZE_SECTION)
  {
    assert Middleware.TEAM_PATHS[RoleBizbizeAdmin.Name()] + "/" == "/bizbize/";
  }

  lemma GecekoduSectionIsTeamSection()
    ensures IsTeamSection(GECEKODU_SECTION)
  {
    assert Middleware.TEAM_PATHS[RoleGecekoduAdmin.Name()] + "/" == "/gecekodu/";
  }

  lemma AgcSectionIsTeamSection()
    ensures IsTeamSection(AGC_SECTION)
  {
    assert Middleware.TEAM_PATHS[RoleAgcAdmin.Name()] + "/" == "/agc/";
  }

  /** The fixed menu: home, then one section per team with its sub-pages. */
  function NavItems(user: Option<User>): (r: seq<NavItem>)
    ensures |r| == 4 && r[0].id == "home" && r[0].href == Some(HomeHref(user))
    ensures r[0].roles.None? && r[0].subItems.None? && !r[0].adminOnly
    ensures forall i :: 1 <= i < |r| ==> IsTeamSection(r[i])
  {
    BizbizeSectionIsTeamSection();
    GecekoduSectionIsTeamSection();
    AgcSectionIsTeamSection();
    [NavItem("home", Some(HomeHref(user)), None, false, None), BIZBIZE_SECTION, GECEKODU_SECTION, AGC_SECTION]
  }

  /** The visibility rule for one entry. */
  predicate IsAccessible(user: Option<User>, item: NavItem)
    ensures item.adminOnly ==> (IsAccessible(user, item) <==> AuthContext.IsSuperAdmin(user))
    ensures AuthContext.IsSuperAdmin(user) && (item.roles.None? || item.roles.value != []) ==> IsAccessible(user, item)
    ensures user.None? ==> (IsAccessible(user, item) <==> !item.adminOnly && item.roles.None?)
  {
    if item.adminOnly then AuthContext.HasRole(user, RoleAdmin.Name())
    else if item.roles.None? then true
    else
      assert AuthContext.IsSuperAdmin(user) && item.roles.value != [] ==> AuthContext.HasRole(user, item.roles.value[0]);
      exists i :: 0 <= i < |item.roles.value| && AuthContext.HasRole(user, item.roles.value[i])
  }

  /** `accessibleNavItems`: the entries the user may see, in menu order. */
  function AccessibleNavItems(user: Option<User>, items: seq<NavItem>): (r: seq<NavItem>)
    ensures forall x :: x in r <==> x in items && IsAccessible(user, x)
    ensures |r| <= |items|
  {
    Filter(items, x => IsAccessible(user, x))
  }

  /** A parent entry is active when the path starts with one of its
      sub-item hrefs. */
  predicate ParentActive(pathname: string, item: NavItem) {
    item.subItems.Some? && exists k :: 0 <= k < |item.subItems.value| && StartsWith(pathname, item.subItems.value[k])
  }

  /** `isActive(href, currentItem)`. */
  function IsActive(pathname: string, href: Option<string>, currentItem: Option<NavItem>): (r: bool)
    ensures currentItem.Some? && currentItem.value.subItems.Some? ==> (r <==> ParentActive(pathname, currentItem.value))
    ensures (currentItem.None? || currentItem.value.subItems.None?) && (href.None? || href == Some("")) ==> !r
    ensures (currentItem.None? || currentItem.value.subItems.None?) && (href == Some(ROOT_PATH) || href == Some(SUPERADMIN_PATH)) ==>
              (r <==> pathname == href.value)
    ensures (currentItem.None? || currentItem.value.subItems.None?) && href.Some? && href.value !in {"", ROOT_PATH, SUPERADMIN_PATH} ==>
              (r <==> StartsWith(pathname, href.value))
  {
    if currentItem.Some? && currentItem.value.subItems.Some? then ParentActive(pathname, currentItem.value)
    else if href.None? || href.value == "" then false
    else if href.value == ROOT_PATH || href.value == SUPERADMIN_PATH then pathname == href.value
    else StartsWith(pathname, href.value)
  }

  /** The entry whose submenu the path lies under (the first one, in menu
      order), looked up over the whole menu. */
  function ActiveParent(items: seq<NavItem>, pathname: string): (r: Option<NavItem>)
    ensures r.None? <==> forall i :: 0 <= i < |items| ==> !ParentActive(pathname, items[i])
    ensures r.Some? ==> r.value.subItems.Some?
    ensures r.Some? ==> exists i :: 0 <= i < |items| && items[i] == r.value && ParentActive(pathname, items[i])
                                    && forall j :: 0 <= j < i ==> !ParentActive(pathname, items[j])
  {
    Find(items, item => ParentActive(pathname, item))
  }

  /** The sidebar's own state: at most one unfolded submenu. */
  class SidebarState {
    var openSubMenu: Option<string>

    constructor ()
      ensures openSubMenu == None
    {
      openSubMenu := None;
    }

    /** `toggleSubMenu(id)`: fold the submenu if it is the open one,
        otherwise unfold it (folding whichever was open). */
    method ToggleSubMenu(id: string)
      modifies this
      ensures old(openSubMenu) == Some(id) ==> openSubMenu == None
      ensures old(openSubMenu) != Some(id) ==> openSubMenu == Some(id)
    {
      if openSubMenu == Some(id) {
        openSubMenu := None;
      } else {
        openSubMenu := Some(id);
      }
    }

    /** The path effect: when the path lies under a submenu, unfold it;
        otherwise leave the state alone. */
    method SyncWithPathname(pathname: string, items: seq<NavItem>)
      modifies this
      ensures ActiveParent(items, pathname).Some? ==> openSubMenu == Some(ActiveParent(items, pathname).value.id)
      ensures ActiveParent(items, pathname).None? ==> openSubMenu == old(openSubMenu)
    {
      var activeParent := ActiveParent(items, pathname);
      if activeParent.Some? {
        openSubMenu := Some(activeParent.value.id);
      }
    }

    /** A click on a submenu header. The menu array is rebuilt on every
        render and is a dependency of the path effect, so the effect runs
        again after the re-render the toggle causes: on a page under a
        submenu, that submenu ends up unfolded whatever was clicked. */
    method Click(id: string, pathname: string, items: seq<NavItem>)
      modifies this
      ensures ActiveParent(items, pathname).Some? ==> openSubMenu == Some(ActiveParent(items, pathname).value.id)
      ensures ActiveParent(items, pathname).None? && old(openSubMenu) == Some(id) ==> openSubMenu == None
      ensures ActiveParent(items, pathname).None? && old(openSubMenu) != Some(id) ==> openSubMenu == Some(id)
    {
      ToggleSubMenu(id);
      SyncWithPathname(pathname, items);
    }

    /** On a page under the AGC seasons section, clicking the AGC header
        does not fold the AGC submenu. */
    method ClickOnAgcPage(user: Option<User>, pathname: string)
      requires StartsWith(pathname, "/agc/seasons")
      modifies this
      ensures openSubMenu == Some("agc")
    {
      AgcPageUnfoldsAgc(user, pathname);
      Click("agc", pathname, NavItems(user));
    }
  }

  // ---------------------------------------------------------------------
  // Properties

  /** Entries without a role list (and not admin-only) are always shown;
      entries with a role list are shown exactly when the user has one of
      the listed roles; admin-only entries exactly for a super-admin. */
  lemma VisibilityRules(user: Option<User>, items: seq<NavItem>, item: NavItem)
    requires item in items
    ensures !item.adminOnly && item.roles.None? ==> item in AccessibleNavItems(user, items)
    ensures !item.adminOnly && item.roles.Some? ==>
              (item in AccessibleNavItems(user, items) <==>
                 exists i :: 0 <= i < |item.roles.value| && AuthContext.HasRole(user, item.roles.value[i]))
    ensures item.adminOnly ==> (item in AccessibleNavItems(user, items) <==> AuthContext.IsSuperAdmin(user))
  {
  }

  /** An entry restricted to a single role is visible exactly to holders
      of that role (and to a super-admin, who passes every role check). */
  lemma SingleRoleItem(user: Option<User>, item: NavItem, role: string)
    requires !item.adminOnly && item.roles == Some([role])
    ensures IsAccessible(user, item) <==> AuthContext.HasRole(user, role)
  {
    if AuthContext.HasRole(user, role) {
      assert item.roles.value[0] == role;
    }
  }

  /** The menu a user sees: always the home entry, then each team section
      exactly when the user holds that team's admin role (a super-admin
      holds them all), in menu order. */
  lemma {:induction false} VisibleMenu(user: Option<User>)
    ensures AccessibleNavItems(user, NavItems(user))
            == [NavItems(user)[0]]
               + (if AuthContext.HasRole(user, RoleBizbizeAdmin.Name()) then [NavItems(user)[1]] else [])
               + (if AuthContext.HasRole(user, RoleGecekoduAdmin.Name()) then [NavItems(user)[2]] else [])
               + (if AuthContext.HasRole(user, RoleAgcAdmin.Name()) then [NavItems(user)[3]] else [])
  {
    var items := NavItems(user);
    SingleRoleItem(user, items[1], RoleBizbizeAdmin.Name());
    SingleRoleItem(user, items[2], RoleGecekoduAdmin.Name());
    SingleRoleItem(user, items[3], RoleAgcAdmin.Name());
    assert items == [items[0], items[1], items[2], items[3]];
    FilterFour(items[0], items[1], items[2], items[3], x => IsAccessible(user, x));
  }

  /** A super-admin sees the whole menu. */
  lemma SuperAdminMenu(user: Option<User>)
    requires AuthContext.IsSuperAdmin(user)
    ensures AccessibleNavItems(user, NavItems(user)) == NavItems(user)
  {
    VisibleMenu(user);
    var items := NavItems(user);
    assert [items[0]] + [items[1]] + [items[2]] + [items[3]] == items;
  }

  /** The role checks of a user whose only role is the AGC admin role. */
  lemma AgcAdminRoles(user: Option<User>)
    requires user == Some(User("u", "u", Some([RoleAgcAdmin.Name()])))
    ensures !AuthContext.IsSuperAdmin(user)
    ensures !AuthContext.HasRole(user, RoleBizbizeAdmin.Name())
    ensures !AuthContext.HasRole(user, RoleGecekoduAdmin.Name())
    ensures AuthContext.HasRole(user, RoleAgcAdmin.Name())
  {
    var roles := user.value.roles.value;
    assert roles[0] != RoleAdmin.Name();
    assert roles[0] != RoleBizbizeAdmin.Name();
    assert roles[0] != RoleGecekoduAdmin.Name();
  }

  /** That user sees the home entry and the AGC section only. */
  lemma AgcAdminMenu(user: Option<User>)
    requires user == Some(User("u", "u", Some([RoleAgcAdmin.Name()])))
    ensures AccessibleNavItems(user, NavItems(user)) == [NavItems(user)[0], NavItems(user)[3]]
  {
    AgcAdminRoles(user);
    VisibleMenu(user);
    var items := NavItems(user);
    assert AccessibleNavItems(user, items) == [items[0]] + [] + [] + [items[3]];
  }

  /** On a page under the AGC section the AGC submenu is the one unfolded. */
  lemma AgcPageUnfoldsAgc(user: Option<User>, pathname: string)
    requires StartsWith(pathname, "/agc/seasons")
    ensures ActiveParent(NavItems(user), pathname).Some?
    ensures ActiveParent(NavItems(user), pathname).value.id == "agc"
  {
    var items := NavItems(user);
    assert ParentActive(pathname, items[3]) by {
      assert StartsWith(pathname, items[3].subItems.value[3]);
    }
    assert !ParentActive(pathname, items[0]);
    assert !ParentActive(pathname, items[1]) by {
      forall k | 0 <= k < 3 ensures !StartsWith(pathname, items[1].subItems.value[k]) {
        assert pathname[1] != items[1].subItems.value[k][1];
      }
    }
    assert !ParentActive(pathname, items[2]) by {
      forall k | 0 <= k < 3 ensures !StartsWith(pathname, items[2].subItems.value[k]) {
        assert pathname[1] != items[2].subItems.value[k][1];
      }
    }
  }
}
