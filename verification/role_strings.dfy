/** How the role string is read in different places. Registration sends
    "USER" or "ADMIN"; the sidebar's entries list "USER" and "ADMIN"; but the
    list pages (Vehicles, Slot Requests, Parking Slots, User Management), the
    header and the user-management access check compare with "admin". No role string is admin in both vocabularies, so the
    "User Management" link is only ever shown to users the page turns away.

    The corrected reading compares roles ignoring case, in the sidebar and in
    the access check alike. */
module RoleStrings {
  import opened Wrappers
  import opened AsciiText
  import opened ListQuery
  import Session
  import Access
  import Header
  import Sidebar
  import UserManagementPage
  import RegisterPage

  // ----- as written -----

  /** Whoever sees the "User Management" link is denied by the page, and
      whoever the page admits sees no sidebar at all. */
  lemma UserManagementLinkAlwaysDenied(u: Session.User)
    ensures Sidebar.USER_MANAGEMENT in Sidebar.FilteredNavItems(Some(u)) ==>
      UserManagementPage.AccessCheck(Some(u)).Some?
    ensures UserManagementPage.AccessCheck(Some(u)).None? ==> Sidebar.FilteredNavItems(Some(u)) == []
  {
    var r := Sidebar.FilteredNavItems(Some(u));
    if Sidebar.USER_MANAGEMENT in r {
      var i :| 0 <= i < |r| && r[i] == Sidebar.USER_MANAGEMENT;
      assert Sidebar.Shown(Some(u), r[i]);
      assert u.role in ["ADMIN"];
    }
    if u.role == "admin" {
      assert u.role !in Sidebar.BOTH;
      Sidebar.UnknownRoleSeesNothing(Some(u));
    }
  }

  /** An account registered with the ADMIN role, as the backend stores the
      role it was sent: it gets the link but not the page, and is no admin on
      the list pages (Vehicles, Slot Requests, Parking Slots, User
      Management). */
  lemma RegisteredAdminIsNoPageAdmin(u: Session.User)
    requires u.role == RegisterPage.RoleValue(RegisterPage.ADMIN)
    ensures Sidebar.FilteredNavItems(Some(u)) == Sidebar.NAV_ITEMS
    ensures UserManagementPage.AccessCheck(Some(u)).Some?
    ensures !Access.IsPageAdmin(Some(u))
    ensures Header.Title(Some(u)) == "User Dashboard"
  {
    Sidebar.AdminRoleSeesAll(Some(u));
  }

  /** An account whose role is "admin" is an admin on the list pages but has no
      navigation. */
  lemma LowerCaseAdminHasNoNavigation(u: Session.User)
    requires u.role == "admin"
    ensures Access.IsPageAdmin(Some(u))
    ensures UserManagementPage.AccessCheck(Some(u)).None?
    ensures Sidebar.FilteredNavItems(Some(u)) == []
  {
    assert u.role !in Sidebar.BOTH;
    Sidebar.UnknownRoleSeesNothing(Some(u));
  }

  // ----- as intended -----

  /** A role is the administrator role whatever its letter case. */
  predicate AdminRole(role: string) {
    Lower(role) == "admin"
  }

  /** An entry's role list holds the role, ignoring case. */
  predicate RoleListed(roles: seq<string>, role: string) {
    exists i :: 0 <= i < |roles| && Lower(roles[i]) == Lower(role)
  }

  predicate ShownIgnoringCase(user: Option<Session.User>, item: Sidebar.NavItem) {
    user.Some? && RoleListed(item.roles, user.value.role)
  }

  /** The sidebar filter with roles compared ignoring case. */
  function NavItemsIgnoringCase(user: Option<Session.User>): (r: seq<Sidebar.NavItem>)
    ensures forall i :: 0 <= i < |r| ==> ShownIgnoringCase(user, r[i])
    ensures forall i :: 0 <= i < |Sidebar.NAV_ITEMS| && ShownIgnoringCase(user, Sidebar.NAV_ITEMS[i]) ==>
      Sidebar.NAV_ITEMS[i] in r
    ensures SubsequenceOf(r, Sidebar.NAV_ITEMS)
    ensures user.None? ==> r == []
  {
    Filter(Sidebar.NAV_ITEMS, (item: Sidebar.NavItem) => ShownIgnoringCase(user, item))
  }

  /** The access check with the same reading of the role. */
  function AccessCheckIgnoringCase(user: Option<Session.User>): (r: Option<UserManagementPage.Denial>)
    ensures r.Some? <==> user.Some? && !AdminRole(user.value.role)
    ensures r.Some? ==> r.value.route == "/dashboard"
  {
    if user.Some? && !AdminRole(user.value.role) then Some(UserManagementPage.ACCESS_DENIED) else None
  }

  /** With one reading, the link is shown exactly to the users the page
      admits, and the role registration sends for admins qualifies. */
  lemma LinkShownIffAdmitted(u: Session.User)
    ensures Sidebar.USER_MANAGEMENT in NavItemsIgnoringCase(Some(u)) <==> AccessCheckIgnoringCase(Some(u)).None?
    ensures AdminRole(RegisterPage.RoleValue(RegisterPage.ADMIN))
  {
    var m := Sidebar.USER_MANAGEMENT;
    var r := NavItemsIgnoringCase(Some(u));
    assert Lower("ADMIN") == "admin";
    assert m.roles == ["ADMIN"];
    assert ShownIgnoringCase(Some(u), m) <==> AdminRole(u.role) by {
      if AdminRole(u.role) {
        assert Lower(m.roles[0]) == Lower(u.role);
      }
    }
    if m in r {
      var i :| 0 <= i < |r| && r[i] == m;
      assert ShownIgnoringCase(Some(u), r[i]);
    }
    if AdminRole(u.role) {
      assert Sidebar.NAV_ITEMS[4] == m;
    }
  }
}
