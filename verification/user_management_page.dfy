/** The decision logic of `src/pages/UserManagement.tsx`: the access check,
    the user search, the status toggle and the user form. */
module UserManagementPage {
  import opened Wrappers
  import opened AsciiText
  import opened ListQuery
  import Session
  import Toasts

  datatype UserRole = PlainUser | AdminUser
  datatype UserStatus = Active | Suspended | PendingUser

  function UserRoleCode(r: UserRole): (s: string)
    ensures s == "user" <==> r == PlainUser
  {
    match r
    case PlainUser => "user"
    case AdminUser => "admin"
  }

  function UserStatusCode(st: UserStatus): (s: string)
    ensures s == "active" <==> st == Active
  {
    match st
    case Active => "active"
    case Suspended => "suspended"
    case PendingUser => "pending"
  }

  /** A row of the user table. */
  datatype ExtendedUser = ExtendedUser(
    id: string,
    name: string,
    email: string,
    role: UserRole,
    status: UserStatus,
    vehicleCount: nat,
    createdAt: string,
    lastLogin: Option<string>)

  /** What the access effect does: nothing, or a destructive toast and a
      redirect. */
  datatype Denial = Denial(notice: Toasts.Notice, route: string)

  const ACCESS_DENIED :=
    Denial(Toasts.Notice("Access denied", "You don't have permission to access this page.", true), "/dashboard")

  /** The mount effect. Only a signed-in user whose role is not exactly
      "admin" is turned away; with nobody signed in the page renders. */
  function AccessCheck(user: Option<Session.User>): (r: Option<Denial>)
    ensures r.Some? <==> user.Some? && user.value.role != "admin"
    ensures r.Some? ==>
      r.value.route == "/dashboard" && r.value.notice.destructive && r.value.notice.title == "Access denied"
  {
    if user.Some? && user.value.role != "admin" then Some(ACCESS_DENIED) else None
  }

  /** `filteredUsers`' test: name, email, role or status contains the term,
      ignoring case. */
  predicate UserMatches(u: ExtendedUser, term: string) {
    || Includes(u.name, term)
    || Includes(u.email, term)
    || Includes(UserRoleCode(u.role), term)
    || Includes(UserStatusCode(u.status), term)
  }

  function FilteredUsers(rows: seq<ExtendedUser>, term: string): (r: seq<ExtendedUser>)
    ensures forall i :: 0 <= i < |r| ==> UserMatches(r[i], term)
    ensures forall i :: 0 <= i < |rows| && UserMatches(rows[i], term) ==> rows[i] in r
    ensures SubsequenceOf(r, rows)
    ensures forall i {:trigger multiset(r)[rows[i]]} :: 0 <= i < |rows| && UserMatches(rows[i], term) ==>
      multiset(r)[rows[i]] == multiset(rows)[rows[i]]
  {
    Filter(rows, (u: ExtendedUser) => UserMatches(u, term))
  }

  /** With an empty search box every user is listed. */
  lemma EmptySearchListsAll(rows: seq<ExtendedUser>)
    ensures FilteredUsers(rows, "") == rows
  {
    forall i | 0 <= i < |rows|
      ensures UserMatches(rows[i], "")
    {
      EmptyTermMatches(rows[i].name);
    }
    FilterKeepsAll(rows, (u: ExtendedUser) => UserMatches(u, ""));
  }

  /** Searching "admin" lists every administrator. */
  lemma AdminSearchFindsAdmins(rows: seq<ExtendedUser>, i: int)
    requires 0 <= i < |rows| && rows[i].role == AdminUser
    ensures rows[i] in FilteredUsers(rows, "admin")
  {
    IncludesExactOccurrence("admin", "admin", 0);
  }

  /** The status `handleToggleStatus` announces: active becomes suspended,
      anything else becomes active. */
  function ToggledStatus(st: UserStatus): (r: UserStatus)
    ensures r != st
    ensures r == Active <==> st != Active
  {
    if st == Active then Suspended else Active
  }

  /** The dropdown entry that triggers the toggle. */
  function ToggleLabel(st: UserStatus): (r: string)
    ensures r == "Suspend" <==> st == Active
    ensures r == "Activate" <==> st != Active
  {
    if st == Active then "Suspend" else "Activate"
  }

  /** The label names the status the toggle moves to, and toggling twice
      comes back to the start except from "pending", which the first toggle
      leaves for good. */
  lemma ToggleAgreesWithLabel(st: UserStatus)
    ensures ToggleLabel(st) == "Suspend" <==> ToggledStatus(st) == Suspended
    ensures st != PendingUser ==> ToggledStatus(ToggledStatus(st)) == st
    ensures ToggledStatus(ToggledStatus(PendingUser)) == Suspended
  {
  }

  /** The create/edit form and the selection. */
  datatype UserForm = UserForm(
    name: string,
    email: string,
    role: UserRole,
    status: UserStatus,
    selected: Option<ExtendedUser>)

  /** `resetForm`: empty name and email, a plain active user, no selection. */
  function ResetForm(f: UserForm): (r: UserForm)
    ensures r.name == "" && r.email == "" && r.role == PlainUser && r.status == Active
    ensures r.selected.None?
  {
    UserForm("", "", PlainUser, Active, None)
  }

  /** `openEditDialog`: load the user into the form. */
  function OpenEditDialog(f: UserForm, u: ExtendedUser): (r: UserForm)
    ensures r.selected == Some(u)
    ensures u == u.(name := r.name, email := r.email, role := r.role, status := r.status)
  {
    UserForm(u.name, u.email, u.role, u.status, Some(u))
  }

  /** The page's data: the listed users and the form. */
  datatype UserPage = UserPage(users: seq<ExtendedUser>, form: UserForm)

  /** What a handler leaves behind: its toast and the page afterwards. */
  datatype Handled = Handled(notice: Toasts.Notice, page: UserPage)

  /** `handleCreateUser`: names the typed user and resets the form; no user
      is added to the list. */
  function HandleCreateUser(p: UserPage): (r: Handled)
    ensures r.notice.title == "User created"
    ensures r.notice.description == "User " + p.form.name + " has been created successfully."
    ensures r.page.form == ResetForm(p.form)
    ensures r.page.users == p.users
  {
    Handled(Toasts.Notice("User created", "User " + p.form.name + " has been created successfully.", false),
            p.(form := ResetForm(p.form)))
  }

  /** `handleEditUser`: names the selected user as it was before editing
      ("undefined" without a selection) and resets the form; the listed
      user keeps its old fields. */
  function HandleEditUser(p: UserPage): (r: Handled)
    ensures r.notice.title == "User updated"
    ensures p.form.selected.Some? ==>
      r.notice.description == "User " + p.form.selected.value.name + " has been updated successfully."
    ensures r.page.form == ResetForm(p.form)
    ensures r.page.users == p.users
  {
    var name := if p.form.selected.Some? then p.form.selected.value.name else "undefined";
    Handled(Toasts.Notice("User updated", "User " + name + " has been updated successfully.", false),
            p.(form := ResetForm(p.form)))
  }

  /** `handleDeleteUser`: a destructive toast; the user stays listed. */
  function HandleDeleteUser(p: UserPage, u: ExtendedUser): (r: Handled)
    ensures r.notice.title == "User deleted" && r.notice.destructive
    ensures r.notice.description == "User " + u.name + " has been deleted."
    ensures r.page == p
  {
    Handled(Toasts.Notice("User deleted", "User " + u.name + " has been deleted.", true), p)
  }

  /** `handleToggleStatus`: announces the status the user would move to; the
      row itself keeps its status. */
  function HandleToggleStatus(p: UserPage, u: ExtendedUser): (r: Handled)
    ensures r.notice.title == "Status updated" && !r.notice.destructive
    ensures r.notice.description ==
      u.name + "'s account has been " + UserStatusCode(ToggledStatus(u.status)) + "."
    ensures r.page == p
  {
    Handled(Toasts.Notice("Status updated",
                          u.name + "'s account has been " + UserStatusCode(ToggledStatus(u.status)) + ".", false),
            p)
  }

  /** Renaming a user in the edit dialog still reports the old name. */
  lemma EditReportsOriginalName(p: UserPage, u: ExtendedUser, typed: string)
    ensures HandleEditUser(p.(form := OpenEditDialog(p.form, u).(name := typed))).notice.description ==
      "User " + u.name + " has been updated successfully."
  {
  }

  /** No handler changes the list of users, in any order of calls: the
      page's users are a constant and every handler only raises a toast and
      resets or loads the form. */
  lemma {:induction false} HandlersKeepUsers(p: UserPage, calls: seq<HandlerCall>)
    ensures RunHandlers(p, calls).users == p.users
    decreases |calls|
  {
    if calls != [] {
      HandlersKeepUsers(ApplyHandler(p, calls[0]), calls[1..]);
    }
  }

  datatype HandlerCall =
    | CreateUser
    | EditUser
    | DeleteUser(target: ExtendedUser)
    | ToggleStatus(target: ExtendedUser)
    | OpenEdit(target: ExtendedUser)
    | TypeName(name: string)

  function ApplyHandler(p: UserPage, c: HandlerCall): UserPage {
    match c
    case CreateUser => HandleCreateUser(p).page
    case EditUser => HandleEditUser(p).page
    case DeleteUser(u) => HandleDeleteUser(p, u).page
    case ToggleStatus(u) => HandleToggleStatus(p, u).page
    case OpenEdit(u) => p.(form := OpenEditDialog(p.form, u))
    case TypeName(n) => p.(form := p.form.(name := n))
  }

  function RunHandlers(p: UserPage, calls: seq<HandlerCall>): UserPage
    decreases |calls|
  {
    if calls == [] then p else RunHandlers(ApplyHandler(p, calls[0]), calls[1..])
  }

  const GREY := "text-gray-600 bg-gray-100"

  /** `getStatusColor`: a class per account status, grey for any other string. */
  function StatusColor(status: string): (r: string)
    ensures r == GREY <==> status !in {"active", "suspended", "pending"}
  {
    if status == "active" then "text-green-600 bg-green-100"
    else if status == "suspended" then "text-red-600 bg-red-100"
    else if status == "pending" then "text-yellow-600 bg-yellow-100"
    else GREY
  }

  lemma StatusColorsDistinct(a: UserStatus, b: UserStatus)
    requires a != b
    ensures StatusColor(UserStatusCode(a)) != StatusColor(UserStatusCode(b))
  {
  }
}
