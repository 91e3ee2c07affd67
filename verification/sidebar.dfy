/** The navigation filter of `src/components/layouts/Sidebar.tsx`. */
module Sidebar {
  import opened Wrappers
  import opened ListQuery
  import Session

  /** A navigation entry and the role strings it is shown to. */
  datatype NavItem = NavItem(name: string, path: string, roles: seq<string>)

  const BOTH: seq<string> := ["USER", "ADMIN"]

  const DASHBOARD := NavItem("Dashboard", "/dashboard", BOTH)
  const VEHICLES := NavItem("Vehicles", "/vehicles", BOTH)
  const PARKING_SLOTS := NavItem("Parking Slots", "/slots", BOTH)
  const SLOT_REQUESTS := NavItem("Slot Requests", "/requests", BOTH)
  const USER_MANAGEMENT := NavItem("User Management", "/users", ["ADMIN"])
  const SETTINGS := NavItem("Settings", "/settings", BOTH)

  /** `navItems`, in display order. */
  const NAV_ITEMS: seq<NavItem> := [DASHBOARD, VEHICLES, PARKING_SLOTS, SLOT_REQUESTS, USER_MANAGEMENT, SETTINGS]

  /** Whether an entry is shown: there is a user and the entry's role list
      holds the user's role string exactly. */
  predicate Shown(user: Option<Session.User>, item: NavItem) {
    user.Some? && user.value.role in item.roles
  }

  /** `filteredNavItems`. */
  function FilteredNavItems(user: Option<Session.User>): (r: seq<NavItem>)
    ensures forall i :: 0 <= i < |r| ==> Shown(user, r[i])
    ensures forall i :: 0 <= i < |NAV_ITEMS| && Shown(user, NAV_ITEMS[i]) ==> NAV_ITEMS[i] in r
    ensures SubsequenceOf(r, NAV_ITEMS)
    ensures user.None? ==> r == []
  {
    Filter(NAV_ITEMS, (item: NavItem) => Shown(user, item))
  }

  /** Signed out, or signed in with a role other than the exact strings
      "USER" and "ADMIN" (such as "admin"), the sidebar is empty. */
  lemma UnknownRoleSeesNothing(user: Option<Session.User>)
    requires user.None? || user.value.role !in BOTH
    ensures FilteredNavItems(user) == []
  {
  }

  /** "ADMIN" sees every entry. */
  lemma AdminRoleSeesAll(user: Option<Session.User>)
    requires user.Some? && user.value.role == "ADMIN"
    ensures FilteredNavItems(user) == NAV_ITEMS
  {
    forall i | 0 <= i < |NAV_ITEMS|
      ensures Shown(user, NAV_ITEMS[i])
    {
      assert "ADMIN" == NAV_ITEMS[i].roles[|NAV_ITEMS[i].roles| - 1];
    }
    FilterKeepsAll(NAV_ITEMS, (item: NavItem) => Shown(user, item));
  }

  /** Which entries a "USER" keeps, one group at a time. */
  lemma UserRoleGroups(user: Option<Session.User>)
    requires user.Some? && user.value.role == "USER"
    ensures Filter([DASHBOARD, VEHICLES, PARKING_SLOTS, SLOT_REQUESTS], (item: NavItem) => Shown(user, item))
      == [DASHBOARD, VEHICLES, PARKING_SLOTS, SLOT_REQUESTS]
    ensures Filter([USER_MANAGEMENT], (item: NavItem) => Shown(user, item)) == []
    ensures Filter([SETTINGS], (item: NavItem) => Shown(user, item)) == [SETTINGS]
  {
    var keep := (item: NavItem) => Shown(user, item);
    var front := [DASHBOARD, VEHICLES, PARKING_SLOTS, SLOT_REQUESTS];
    assert "USER" in BOTH by { assert BOTH[0] == "USER"; }
    forall i | 0 <= i < |front|
      ensures keep(front[i])
    {
      assert front[i].roles == BOTH;
    }
    FilterKeepsAll(front, keep);
    FilterKeepsAll([SETTINGS], keep);
    assert !keep(USER_MANAGEMENT);
  }

  /** "USER" sees every entry except user management. */
  lemma UserRoleSeesAllButUsers(user: Option<Session.User>)
    requires user.Some? && user.value.role == "USER"
    ensures FilteredNavItems(user) == [DASHBOARD, VEHICLES, PARKING_SLOTS, SLOT_REQUESTS, SETTINGS]
  {
    var keep := (item: NavItem) => Shown(user, item);
    var front, users, back := [DASHBOARD, VEHICLES, PARKING_SLOTS, SLOT_REQUESTS], [USER_MANAGEMENT], [SETTINGS];
    assert NAV_ITEMS == (front + users) + back;
    FilterAppend(front + users, back, keep);
    FilterAppend(front, users, keep);
    UserRoleGroups(user);
  }
}
