/** The decision logic of `src/pages/Vehicles.tsx`: which vehicles are listed,
    which page of them is shown, which row actions appear, and the edit form. */
module VehiclesPage {
  import opened Wrappers
  import opened AsciiText
  import opened ListQuery
  import opened ParkingTypes
  import Toasts
  import Access
  import Session

  /** The search part of `filteredVehicles`: plate, type, color or model
      contains the term, ignoring case; an absent or empty color or model never
      matches. */
  predicate VehicleMatches(v: Vehicle, term: string) {
    || Includes(v.plateNumber, term)
    || Includes(VehicleTypeCode(v.vehicleType), term)
    || (Truthy(v.color) && Includes(v.color.value, term))
    || (Truthy(v.model) && Includes(v.model.value, term))
  }

  predicate Listed(user: Option<Session.User>, term: string, v: Vehicle) {
    Access.CanSeeRow(user, v.userId) && VehicleMatches(v, term)
  }

  /** `filteredVehicles`: the rows the viewer may see that match the search,
      in their original order. */
  function FilteredVehicles(rows: seq<Vehicle>, user: Option<Session.User>, term: string): (r: seq<Vehicle>)
    ensures forall i :: 0 <= i < |r| ==> Access.CanSeeRow(user, r[i].userId) && VehicleMatches(r[i], term)
    ensures forall i :: 0 <= i < |rows| && Listed(user, term, rows[i]) ==> rows[i] in r
    ensures forall i :: 0 <= i < |r| ==> r[i] in rows
    ensures SubsequenceOf(r, rows)
    ensures forall i {:trigger multiset(r)[rows[i]]} :: 0 <= i < |rows| && Listed(user, term, rows[i]) ==>
      multiset(r)[rows[i]] == multiset(rows)[rows[i]]
  {
    Filter(rows, (v: Vehicle) => Listed(user, term, v))
  }

  /** A non-admin is shown only their own vehicles; nobody signed in sees
      none. */
  lemma NonAdminSeesOwnVehicles(rows: seq<Vehicle>, user: Option<Session.User>, term: string)
    requires !Access.IsPageAdmin(user)
    ensures forall i :: 0 <= i < |FilteredVehicles(rows, user, term)| ==>
      user.Some? && FilteredVehicles(rows, user, term)[i].userId == user.value.id
    ensures user.None? ==> FilteredVehicles(rows, user, term) == []
  {
    var r := FilteredVehicles(rows, user, term);
    forall i | 0 <= i < |r|
      ensures user.Some? && r[i].userId == user.value.id
    {
      Access.CanSeeRowCases(user, r[i].userId);
    }
  }

  /** An admin with an empty search box sees every vehicle, in order. */
  lemma AdminEmptySearchListsAll(rows: seq<Vehicle>, user: Option<Session.User>)
    requires Access.IsPageAdmin(user)
    ensures FilteredVehicles(rows, user, "") == rows
  {
    forall i | 0 <= i < |rows|
      ensures Listed(user, "", rows[i])
    {
      EmptyTermMatches(rows[i].plateNumber);
    }
    FilterKeepsAll(rows, (v: Vehicle) => Listed(user, "", v));
  }

  /** Typing the term in upper case lists the same vehicles. */
  lemma SearchIgnoresCase(rows: seq<Vehicle>, user: Option<Session.User>, term: string)
    ensures FilteredVehicles(rows, user, Upper(term)) == FilteredVehicles(rows, user, term)
  {
    forall i | 0 <= i < |rows|
      ensures Listed(user, Upper(term), rows[i]) == Listed(user, term, rows[i])
    {
      var v := rows[i];
      IncludesIgnoresCase(v.plateNumber, term);
      IncludesIgnoresCase(VehicleTypeCode(v.vehicleType), term);
      if Truthy(v.color) { IncludesIgnoresCase(v.color.value, term); }
      if Truthy(v.model) { IncludesIgnoresCase(v.model.value, term); }
    }
    FilterCongruent(rows, (v: Vehicle) => Listed(user, Upper(term), v), (v: Vehicle) => Listed(user, term, v));
  }

  /** Without a color and a model, only the plate and the type are searched. */
  lemma MissingAttributesNeverMatch(v: Vehicle, term: string)
    requires !Truthy(v.color) && !Truthy(v.model)
    ensures VehicleMatches(v, term) <==>
      Includes(v.plateNumber, term) || Includes(VehicleTypeCode(v.vehicleType), term)
  {
  }

  /** The action buttons of one table row. */
  datatype RowActions = RowActions(approve: bool, reject: bool, edit: bool, delete: bool)

  /** `isAdmin && status === "pending"` for approve/reject and
      `!isAdmin || status === "approved"` for edit/delete. */
  function VehicleRowActions(isAdmin: bool, status: Option<ApprovalStatus>): (r: RowActions)
    ensures r.approve == r.reject && r.edit == r.delete
    ensures r.approve ==> isAdmin
    ensures !isAdmin ==> r.edit
  {
    var review := isAdmin && status == Some(Pending);
    var manage := !isAdmin || status == Some(Approved);
    RowActions(review, review, manage, manage)
  }

  /** A row never offers review and management at once; an admin reviews
      exactly the pending vehicles, manages exactly the approved ones, and gets
      no button on a rejected or unstatused one. */
  lemma RowActionsByStatus(isAdmin: bool, status: Option<ApprovalStatus>)
    ensures !(VehicleRowActions(isAdmin, status).approve && VehicleRowActions(isAdmin, status).edit)
    ensures isAdmin ==> (VehicleRowActions(isAdmin, status).approve <==> status == Some(Pending))
    ensures isAdmin ==> (VehicleRowActions(isAdmin, status).edit <==> status == Some(Approved))
    ensures isAdmin && (status.None? || status == Some(Rejected)) ==>
      VehicleRowActions(isAdmin, status) == RowActions(false, false, false, false)
  {
  }

  /** "Add Vehicle" is offered to non-admins only. */
  predicate CanAddVehicle(isAdmin: bool) { !isAdmin }

  /** The reject dialog's button: `disabled={!rejectionReason}`. */
  predicate RejectEnabled(rejectionReason: string) { rejectionReason != "" }

  /** Previous: `disabled={currentPage === 1}`, otherwise `currentPage - 1`. */
  function VehiclesPrevious(page: int): (r: int)
    ensures page >= 1 ==> r >= 1
    ensures r <= page
    ensures page != 1 ==> r == page - 1
  {
    if page == 1 then page else page - 1
  }

  /** Next: `disabled={currentPage === totalPages}`, otherwise
      `currentPage + 1`. */
  function VehiclesNext(page: int, total: nat): (r: int)
    ensures page <= total ==> r <= total
    ensures r >= page
    ensures page != total ==> r == page + 1
  {
    if page == total then page else page + 1
  }

  /** Inside `[1, totalPages]` the pager stays inside; beyond the last page
      (reachable after a narrower search) Next is still enabled and keeps
      going. */
  lemma VehiclesPagerRange(page: int, total: nat)
    ensures 1 <= page <= total ==>
      1 <= VehiclesPrevious(page) <= total && 1 <= VehiclesNext(page, total) <= total
    ensures page > total ==> VehiclesNext(page, total) == page + 1
  {
  }

  /** Within `[1, totalPages]` the Vehicles buttons, which are disabled at
      the ends rather than clamped, behave as the clamped pager of the other
      list pages; so Next undoes Previous away from the ends here too. */
  lemma VehiclesPagerMatchesClamped(page: int, total: nat)
    requires 1 <= page <= total
    ensures VehiclesPrevious(page) == PreviousPage(page)
    ensures VehiclesNext(page, total) == NextPage(page, total)
    ensures 1 < page ==> VehiclesNext(VehiclesPrevious(page), total) == page
    ensures page < total ==> VehiclesPrevious(VehiclesNext(page, total)) == page
  {
  }

  /** The create/edit form state and the dialog selection. */
  datatype VehicleForm = VehicleForm(
    plateNumber: string,
    vehicleType: Option<VehicleType>,
    size: Option<VehicleSize>,
    color: string,
    model: string,
    rejectionReason: string,
    selected: Option<Vehicle>)

  /** `resetForm`: every field empty, nothing selected. */
  function ResetForm(f: VehicleForm): (r: VehicleForm)
    ensures r.plateNumber == "" && r.vehicleType.None? && r.size.None?
    ensures r.color == "" && r.model == "" && r.rejectionReason == ""
    ensures r.selected.None?
  {
    VehicleForm("", None, None, "", "", "", None)
  }

  /** `openEditDialog`: load the vehicle into the form (absent attributes as
      `""`); the rejection reason is left alone. */
  function OpenEditDialog(f: VehicleForm, v: Vehicle): (r: VehicleForm)
    ensures r.selected == Some(v)
    ensures r.plateNumber == v.plateNumber
    ensures r.vehicleType == Some(v.vehicleType) && r.size == Some(v.size)
    ensures r.color == OrElse(v.color, "") && r.model == OrElse(v.model, "")
    ensures r.rejectionReason == f.rejectionReason
  {
    f.(selected := Some(v), plateNumber := v.plateNumber, vehicleType := Some(v.vehicleType),
       size := Some(v.size), color := OrElse(v.color, ""), model := OrElse(v.model, ""))
  }

  /** Reading the edit form back gives the vehicle, when it had a color and a
      model. */
  lemma EditFormRoundTrip(f: VehicleForm, v: Vehicle)
    requires Truthy(v.color) && Truthy(v.model)
    ensures var e := OpenEditDialog(f, v);
      v == v.(plateNumber := e.plateNumber, vehicleType := e.vehicleType.value, size := e.size.value,
               color := Some(e.color), model := Some(e.model))
  {
  }

  /** `openDeleteDialog`, `openApproveDialog`, `openRejectDialog`: select the
      vehicle and touch nothing else. */
  function OpenDialog(f: VehicleForm, v: Vehicle): (r: VehicleForm)
    ensures r.selected == Some(v)
    ensures r.(selected := f.selected) == f
  {
    f.(selected := Some(v))
  }

  /** What a dialog's submit handler leaves behind. */
  datatype Handled = Handled(notice: Toasts.Notice, form: VehicleForm)

  /** The plate in a toast about the selected vehicle; a missing selection
      renders as "undefined". */
  function SelectedPlate(f: VehicleForm): (r: string)
    ensures f.selected.Some? ==> r == f.selected.value.plateNumber
  {
    if f.selected.Some? then f.selected.value.plateNumber else "undefined"
  }

  /** `handleCreateVehicle`: names the plate the creation form submitted, then
      resets the form. */
  function HandleCreateVehicle(f: VehicleForm, submittedPlate: string): (r: Handled)
    ensures r.notice.title == "Vehicle submitted for approval"
    ensures r.notice.description ==
      "Vehicle " + submittedPlate + " has been submitted and is pending approval."
    ensures r.form == ResetForm(f)
  {
    Handled(Toasts.Notice("Vehicle submitted for approval",
                          "Vehicle " + submittedPlate + " has been submitted and is pending approval.", false),
            ResetForm(f))
  }

  /** `handleEditVehicle`: names the plate typed in the form, then resets it. */
  function HandleEditVehicle(f: VehicleForm): (r: Handled)
    ensures r.notice.title == "Vehicle updated"
    ensures r.notice.description == "Vehicle " + f.plateNumber + " has been updated successfully."
    ensures r.form == ResetForm(f)
  {
    Handled(Toasts.Notice("Vehicle updated", "Vehicle " + f.plateNumber + " has been updated successfully.", false),
            ResetForm(f))
  }

  /** `handleDeleteVehicle`: names the selected vehicle and clears only the
      selection. */
  function HandleDeleteVehicle(f: VehicleForm): (r: Handled)
    ensures r.notice.title == "Vehicle deleted"
    ensures r.notice.description == "Vehicle " + SelectedPlate(f) + " has been removed."
    ensures r.form == f.(selected := None)
  {
    Handled(Toasts.Notice("Vehicle deleted", "Vehicle " + SelectedPlate(f) + " has been removed.", false),
            f.(selected := None))
  }

  /** `handleApproveVehicle`: as deletion, with the approval wording. */
  function HandleApproveVehicle(f: VehicleForm): (r: Handled)
    ensures r.notice.title == "Vehicle approved"
    ensures r.notice.description == "Vehicle " + SelectedPlate(f) + " has been approved."
    ensures r.form == f.(selected := None)
  {
    Handled(Toasts.Notice("Vehicle approved", "Vehicle " + SelectedPlate(f) + " has been approved.", false),
            f.(selected := None))
  }

  /** `handleRejectVehicle`: clears the selection and the typed reason, so
      the reject button starts disabled next time. */
  function HandleRejectVehicle(f: VehicleForm): (r: Handled)
    ensures r.notice.title == "Vehicle rejected"
    ensures r.notice.description == "Vehicle " + SelectedPlate(f) + " has been rejected."
    ensures r.form == f.(selected := None, rejectionReason := "")
    ensures !RejectEnabled(r.form.rejectionReason)
  {
    Handled(Toasts.Notice("Vehicle rejected", "Vehicle " + SelectedPlate(f) + " has been rejected.", false),
            f.(selected := None, rejectionReason := ""))
  }

  /** Confirming a dialog opened on a row names that row's plate, and the
      approve and delete paths give back the form as it was before the
      dialog opened, selection apart. */
  lemma DialogNamesOpenedRow(f: VehicleForm, v: Vehicle)
    ensures HandleApproveVehicle(OpenDialog(f, v)).notice.description ==
      "Vehicle " + v.plateNumber + " has been approved."
    ensures HandleApproveVehicle(OpenDialog(f, v)).form == f.(selected := None)
    ensures HandleDeleteVehicle(OpenDialog(f, v)).notice.description ==
      "Vehicle " + v.plateNumber + " has been removed."
    ensures HandleRejectVehicle(OpenDialog(f, v)).notice.description ==
      "Vehicle " + v.plateNumber + " has been rejected."
  {
  }

  /** `getStatusBadge`: no badge for a vehicle without a status, otherwise the
      background/text classes of its status. */
  function StatusBadge(status: Option<ApprovalStatus>): (r: Option<(string, string)>)
    ensures r.None? <==> status.None?
    ensures status == Some(Approved) ==> r == Some(("bg-green-100", "text-green-600"))
    ensures status == Some(Pending) ==> r == Some(("bg-yellow-100", "text-yellow-600"))
    ensures status == Some(Rejected) ==> r == Some(("bg-red-100", "text-red-600"))
  {
    match status
    case None => None
    case Some(Approved) => Some(("bg-green-100", "text-green-600"))
    case Some(Pending) => Some(("bg-yellow-100", "text-yellow-600"))
    case Some(Rejected) => Some(("bg-red-100", "text-red-600"))
  }

  /** Different statuses get different badges. */
  lemma StatusBadgesDistinct(a: ApprovalStatus, b: ApprovalStatus)
    requires a != b
    ensures StatusBadge(Some(a)) != StatusBadge(Some(b))
  {
  }
}
