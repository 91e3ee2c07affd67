/** The decision logic of `src/pages/SlotRequests.tsx`: which requests are
    listed, the pager, which row actions appear, and the approve/reject dialog
    guards. */
module SlotRequestsPage {
  import opened Wrappers
  import opened AsciiText
  import opened ListQuery
  import opened ParkingTypes
  import Access
  import Session
  import Toasts

  /** The search part of `filteredRequests`: plate, preferred location, status
      or (when present) the requester's name contains the term, ignoring
      case. */
  predicate RequestMatches(q: SlotRequest, term: string) {
    || Includes(q.vehiclePlate, term)
    || Includes(q.preferredLocation, term)
    || Includes(ApprovalStatusCode(q.status), term)
    || (Truthy(q.userName) && Includes(q.userName.value, term))
  }

  predicate Listed(user: Option<Session.User>, term: string, q: SlotRequest) {
    Access.CanSeeRow(user, q.userId) && RequestMatches(q, term)
  }

  /** `filteredRequests`. */
  function FilteredRequests(rows: seq<SlotRequest>, user: Option<Session.User>, term: string): (r: seq<SlotRequest>)
    ensures forall i :: 0 <= i < |r| ==> Access.CanSeeRow(user, r[i].userId) && RequestMatches(r[i], term)
    ensures forall i :: 0 <= i < |rows| && Listed(user, term, rows[i]) ==> rows[i] in r
    ensures SubsequenceOf(r, rows)
    ensures forall i {:trigger multiset(r)[rows[i]]} :: 0 <= i < |rows| && Listed(user, term, rows[i]) ==>
      multiset(r)[rows[i]] == multiset(rows)[rows[i]]
  {
    Filter(rows, (q: SlotRequest) => Listed(user, term, q))
  }

  /** A non-admin is shown only their own requests. */
  lemma NonAdminSeesOwnRequests(rows: seq<SlotRequest>, user: Option<Session.User>, term: string)
    requires !Access.IsPageAdmin(user)
    ensures forall i :: 0 <= i < |FilteredRequests(rows, user, term)| ==>
      user.Some? && FilteredRequests(rows, user, term)[i].userId == user.value.id
  {
    var r := FilteredRequests(rows, user, term);
    forall i | 0 <= i < |r|
      ensures user.Some? && r[i].userId == user.value.id
    {
      Access.CanSeeRowCases(user, r[i].userId);
    }
  }

  /** An admin with an empty search box sees every request. */
  lemma AdminEmptySearchListsAll(rows: seq<SlotRequest>, user: Option<Session.User>)
    requires Access.IsPageAdmin(user)
    ensures FilteredRequests(rows, user, "") == rows
  {
    forall i | 0 <= i < |rows|
      ensures Listed(user, "", rows[i])
    {
      EmptyTermMatches(rows[i].vehiclePlate);
    }
    FilterKeepsAll(rows, (q: SlotRequest) => Listed(user, "", q));
  }

  /** The page shown for `currentPage`, with at most ten requests. */
  function RequestsPage(rows: seq<SlotRequest>, user: Option<Session.User>, term: string, page: int)
    : (r: seq<SlotRequest>)
    ensures |r| <= ITEMS_PER_PAGE
    ensures page >= 1 && |r| > 0 ==> (page - 1) * ITEMS_PER_PAGE + |r| <= |FilteredRequests(rows, user, term)|
    ensures page >= 1 ==> forall k :: 0 <= k < |r| ==>
      r[k] == FilteredRequests(rows, user, term)[(page - 1) * ITEMS_PER_PAGE + k]
    ensures page > TotalPages(|FilteredRequests(rows, user, term)|) ==> r == []
  {
    PageSlice(FilteredRequests(rows, user, term), page)
  }

  /** What one table row offers. `slotBadge` holds the slot number shown;
      `viewReason` is the "View Reason" button. */
  datatype RequestRowView = RequestRowView(
    approve: bool,
    reject: bool,
    slotBadge: Option<string>,
    viewReason: bool)

  function RequestRowActions(isAdmin: bool, q: SlotRequest): (r: RequestRowView)
    ensures r.approve == r.reject
    ensures r.approve <==> isAdmin && q.status == Pending
    ensures r.slotBadge.Some? <==> !isAdmin && q.status == Approved && q.assignedSlot.Some?
    ensures r.slotBadge.Some? ==> r.slotBadge.value == q.assignedSlot.value.slotNumber
    ensures r.viewReason <==> !isAdmin && q.status == Rejected
  {
    var review := isAdmin && q.status == Pending;
    RequestRowView(
      review, review,
      if !isAdmin && q.status == Approved && q.assignedSlot.Some? then Some(q.assignedSlot.value.slotNumber) else None,
      !isAdmin && q.status == Rejected)
  }

  /** Every row shows at most one of the three groups; admins never get the
      requester's badge or reason button, and requesters never get review
      buttons. */
  lemma RowGroupsExclusive(isAdmin: bool, q: SlotRequest)
    ensures var v := RequestRowActions(isAdmin, q);
      (v.approve ==> v.slotBadge.None? && !v.viewReason)
      && (v.slotBadge.Some? ==> !v.viewReason)
      && (isAdmin ==> v.slotBadge.None? && !v.viewReason)
      && (!isAdmin ==> !v.approve)
  {
  }

  /** The "View Reason" toast text: `rejectionReason || "No reason provided"`. */
  function ReasonText(q: SlotRequest): (r: string)
    ensures r != ""
    ensures Truthy(q.rejectionReason) ==> r == q.rejectionReason.value
    ensures !Truthy(q.rejectionReason) ==> r == "No reason provided"
  {
    OrElse(q.rejectionReason, "No reason provided")
  }

  /** "New Request" is offered to non-admins only. */
  predicate CanCreateRequest(isAdmin: bool) { !isAdmin }

  /** "Approve Request": `disabled={!assignedSlotId}`. */
  predicate ApproveEnabled(assignedSlotId: string) { assignedSlotId != "" }

  /** "Reject Request": `disabled={!rejectionReason}`. */
  predicate RejectEnabled(rejectionReason: string) { rejectionReason != "" }

  /** The create-request form, the dialog fields and the selection. */
  datatype RequestForm = RequestForm(
    selectedVehicleId: string,
    preferredLocation: string,
    startDate: string,
    endDate: string,
    notes: string,
    rejectionReason: string,
    assignedSlotId: string,
    selected: Option<SlotRequest>)

  /** `resetForm`: every field empty and nothing selected, so both dialog
      buttons start disabled. */
  function ResetForm(f: RequestForm): (r: RequestForm)
    ensures r.selectedVehicleId == "" && r.preferredLocation == ""
    ensures r.startDate == "" && r.endDate == "" && r.notes == ""
    ensures r.selected.None?
    ensures !ApproveEnabled(r.assignedSlotId) && !RejectEnabled(r.rejectionReason)
  {
    RequestForm("", "", "", "", "", "", "", None)
  }

  /** `openApproveDialog`/`openRejectDialog`: select the request and keep the
      rest of the form. */
  function OpenReviewDialog(f: RequestForm, q: SlotRequest): (r: RequestForm)
    ensures r.selected == Some(q)
    ensures r.(selected := f.selected) == f
  {
    f.(selected := Some(q))
  }

  /** What a dialog's submit handler leaves behind: the toast it raised and
      the form afterwards. */
  datatype Handled = Handled(notice: Toasts.Notice, form: RequestForm)

  /** The plate in a review toast; JavaScript renders a missing selection as
      "undefined". */
  function SelectedPlate(f: RequestForm): (r: string)
    ensures f.selected.Some? ==> r == f.selected.value.vehiclePlate
  {
    if f.selected.Some? then f.selected.value.vehiclePlate else "undefined"
  }

  /** `handleCreateRequest`: the submission toast, then a cleared form. */
  function HandleCreateRequest(f: RequestForm): (r: Handled)
    ensures r.notice.title == "Parking slot request submitted" && !r.notice.destructive
    ensures r.form == ResetForm(f)
  {
    Handled(Toasts.Notice("Parking slot request submitted",
                          "Your request has been submitted and is pending approval.", false),
            ResetForm(f))
  }

  /** `handleApproveRequest`: a toast naming the selected request's plate,
      then a cleared form, so the selection is gone. */
  function HandleApproveRequest(f: RequestForm): (r: Handled)
    ensures r.notice.title == "Request approved"
    ensures r.notice.description ==
      "Parking request for vehicle " + SelectedPlate(f) + " has been approved."
    ensures r.form == ResetForm(f)
    ensures r.form.selected.None? && !ApproveEnabled(r.form.assignedSlotId)
  {
    Handled(Toasts.Notice("Request approved",
                          "Parking request for vehicle " + SelectedPlate(f) + " has been approved.", false),
            ResetForm(f))
  }

  /** `handleRejectRequest`: as approval, with the rejection wording. */
  function HandleRejectRequest(f: RequestForm): (r: Handled)
    ensures r.notice.title == "Request rejected"
    ensures r.notice.description ==
      "Parking request for vehicle " + SelectedPlate(f) + " has been rejected."
    ensures r.form == ResetForm(f)
    ensures r.form.selected.None? && !RejectEnabled(r.form.rejectionReason)
  {
    Handled(Toasts.Notice("Request rejected",
                          "Parking request for vehicle " + SelectedPlate(f) + " has been rejected.", false),
            ResetForm(f))
  }

  /** Opening a review dialog and confirming it reports the plate of the row
      the dialog was opened on. */
  lemma ReviewNamesOpenedRow(f: RequestForm, q: SlotRequest)
    ensures HandleApproveRequest(OpenReviewDialog(f, q)).notice.description ==
      "Parking request for vehicle " + q.vehiclePlate + " has been approved."
    ensures HandleRejectRequest(OpenReviewDialog(f, q)).notice.description ==
      "Parking request for vehicle " + q.vehiclePlate + " has been rejected."
  {
  }

  const GREY := "text-gray-600 bg-gray-100"

  /** `getStatusColor` of this page: one class per request status, grey for
      any other string. */
  function RequestStatusColor(status: string): (r: string)
    ensures r == GREY <==> ParseApprovalStatus(status).None?
  {
    if status == "pending" then "text-yellow-600 bg-yellow-100"
    else if status == "approved" then "text-green-600 bg-green-100"
    else if status == "rejected" then "text-red-600 bg-red-100"
    else GREY
  }

  /** The three request statuses get three different colors. */
  lemma RequestStatusColorsDistinct(a: ApprovalStatus, b: ApprovalStatus)
    requires a != b
    ensures RequestStatusColor(ApprovalStatusCode(a)) != RequestStatusColor(ApprovalStatusCode(b))
  {
  }
}
