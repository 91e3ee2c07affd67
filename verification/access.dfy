/** The role and ownership tests the list pages repeat. The list pages
    (Vehicles, Slot Requests, Parking Slots, User Management) compare the role
    with the literal `"admin"`. */
module Access {
  import opened Wrappers
  import Session

  const PAGE_ADMIN_ROLE := "admin"

  /** `authState.user?.role === "admin"`. */
  predicate IsPageAdmin(user: Option<Session.User>) {
    user.Some? && user.value.role == PAGE_ADMIN_ROLE
  }

  /** The ownership part of the Vehicles and SlotRequests filters:
      `isAdmin ? true : row.userId === authState.user?.id`. */
  predicate CanSeeRow(user: Option<Session.User>, ownerId: string) {
    IsPageAdmin(user) || (user.Some? && user.value.id == ownerId)
  }

  /** Admins see every row, signed-out visitors none, everyone else only
      their own. */
  lemma CanSeeRowCases(user: Option<Session.User>, ownerId: string)
    ensures IsPageAdmin(user) ==> CanSeeRow(user, ownerId)
    ensures user.None? ==> !CanSeeRow(user, ownerId)
    ensures !IsPageAdmin(user) ==>
      (CanSeeRow(user, ownerId) <==> user.Some? && user.value.id == ownerId)
  {
  }
}
