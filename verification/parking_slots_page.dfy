/** The decision logic of `src/pages/ParkingSlots.tsx`: the slot search, the
    pager, the admin-only controls, the form, and `getStatusColor`. */
module ParkingSlotsPage {
  import opened Wrappers
  import opened AsciiText
  import opened ListQuery
  import opened ParkingTypes
  import Toasts

  /** `filteredSlots`' test: slot number, location, status or vehicle type
      contains the term, ignoring case. */
  predicate SlotMatches(s: ParkingSlot, term: string) {
    || Includes(s.slotNumber, term)
    || Includes(s.location, term)
    || Includes(SlotStatusCode(s.status), term)
    || Includes(VehicleTypeCode(s.vehicleType), term)
  }

  /** `filteredSlots`: no ownership filter, everybody sees every slot that
      matches. */
  function FilteredSlots(rows: seq<ParkingSlot>, term: string): (r: seq<ParkingSlot>)
    ensures forall i :: 0 <= i < |r| ==> SlotMatches(r[i], term)
    ensures forall i :: 0 <= i < |rows| && SlotMatches(rows[i], term) ==> rows[i] in r
    ensures SubsequenceOf(r, rows)
    ensures forall i {:trigger multiset(r)[rows[i]]} :: 0 <= i < |rows| && SlotMatches(rows[i], term) ==>
      multiset(r)[rows[i]] == multiset(rows)[rows[i]]
  {
    Filter(rows, (s: ParkingSlot) => SlotMatches(s, term))
  }

  /** With an empty search box every slot is listed. */
  lemma EmptySearchListsAll(rows: seq<ParkingSlot>)
    ensures FilteredSlots(rows, "") == rows
  {
    forall i | 0 <= i < |rows|
      ensures SlotMatches(rows[i], "")
    {
      EmptyTermMatches(rows[i].slotNumber);
    }
    FilterKeepsAll(rows, (s: ParkingSlot) => SlotMatches(s, ""));
  }

  /** The search finds a slot by its status word typed in any case. */
  lemma StatusSearchFindsSlot(rows: seq<ParkingSlot>, i: int)
    requires 0 <= i < |rows|
    ensures rows[i] in FilteredSlots(rows, Upper(SlotStatusCode(rows[i].status)))
  {
    var code := SlotStatusCode(rows[i].status);
    IncludesExactOccurrence(code, code, 0);
    IncludesIgnoresCase(code, code);
  }

  /** The "Add Slots" button, the actions column and the row's edit/delete
      buttons. */
  datatype SlotControls = SlotControls(create: bool, edit: bool, delete: bool)

  /** Every slot control is rendered for admins and for nobody else. */
  function Controls(isAdmin: bool): (r: SlotControls)
    ensures r.create == isAdmin && r.edit == isAdmin && r.delete == isAdmin
  {
    SlotControls(isAdmin, isAdmin, isAdmin)
  }

  /** The bulk-create and edit form and the selection. `slotCount` is the
      number typed in the count box. */
  datatype SlotForm = SlotForm(
    slotNumber: string,
    slotPrefix: string,
    slotCount: int,
    vehicleType: Option<VehicleType>,
    size: Option<VehicleSize>,
    location: string,
    status: SlotStatus,
    selected: Option<ParkingSlot>)

  /** `resetForm`: prefix "A", one slot, status available, the rest empty. */
  function ResetForm(f: SlotForm): (r: SlotForm)
    ensures r.slotPrefix == "A" && r.slotCount == 1 && r.status == Available
    ensures r.slotNumber == "" && r.vehicleType.None? && r.size.None? && r.location == ""
    ensures r.selected.None?
  {
    SlotForm("", "A", 1, None, None, "", Available, None)
  }

  /** `openEditDialog`: copy the slot's editable fields into the form; the
      bulk-create prefix and count are left alone. */
  function OpenEditDialog(f: SlotForm, s: ParkingSlot): (r: SlotForm)
    ensures r.selected == Some(s)
    ensures r.slotNumber == s.slotNumber && r.location == s.location && r.status == s.status
    ensures r.vehicleType == Some(s.vehicleType) && r.size == Some(s.size)
    ensures r.slotPrefix == f.slotPrefix && r.slotCount == f.slotCount
  {
    f.(selected := Some(s), slotNumber := s.slotNumber, vehicleType := Some(s.vehicleType),
       size := Some(s.size), location := s.location, status := s.status)
  }

  /** The edit form reproduces the slot it was opened on. */
  lemma EditFormRoundTrip(f: SlotForm, s: ParkingSlot)
    ensures var e := OpenEditDialog(f, s);
      s == s.(slotNumber := e.slotNumber, vehicleType := e.vehicleType.value, size := e.size.value,
               location := e.location, status := e.status)
  {
  }

  const GREY := "text-gray-600 bg-gray-100"

  /** `getStatusColor`: a class for each of the four statuses, grey for any
      other string. */
  function StatusColor(status: string): (r: string)
    ensures r == GREY <==> ParseSlotStatus(status).None?
  {
    if status == "available" then "text-green-600 bg-green-100"
    else if status == "occupied" then "text-blue-600 bg-blue-100"
    else if status == "reserved" then "text-yellow-600 bg-yellow-100"
    else if status == "maintenance" then "text-red-600 bg-red-100"
    else GREY
  }

  /** The four statuses are told apart by their colors. */
  lemma StatusColorsDistinct(a: SlotStatus, b: SlotStatus)
    requires a != b
    ensures StatusColor(SlotStatusCode(a)) != StatusColor(SlotStatusCode(b))
  {
  }

  /** What a dialog's submit handler leaves behind. */
  datatype Handled = Handled(notice: Toasts.Notice, form: SlotForm)

  /** A number as JavaScript's template string writes an integer. */
  function IntText(n: int): (r: string)
    ensures n >= 0 ==> r == Toasts.DecimalString(n)
    ensures n < 0 ==> r == "-" + Toasts.DecimalString(-n)
  {
    if n >= 0 then Toasts.DecimalString(n) else "-" + Toasts.DecimalString(-n)
  }

  /** The slot number in an edit/delete toast; a missing selection renders as
      "undefined". */
  function SelectedNumber(f: SlotForm): (r: string)
    ensures f.selected.Some? ==> r == f.selected.value.slotNumber
  {
    if f.selected.Some? then f.selected.value.slotNumber else "undefined"
  }

  /** `handleCreateSlot`: reports the count and prefix typed, then resets the
      form to its defaults. */
  function HandleCreateSlot(f: SlotForm): (r: Handled)
    ensures r.notice.title == "Parking slots created"
    ensures r.notice.description ==
      IntText(f.slotCount) + " parking slots with prefix " + f.slotPrefix + " have been added."
    ensures r.form == ResetForm(f)
    ensures r.form.slotPrefix == "A" && r.form.slotCount == 1 && r.form.selected.None?
  {
    Handled(Toasts.Notice("Parking slots created",
                          IntText(f.slotCount) + " parking slots with prefix " + f.slotPrefix + " have been added.",
                          false),
            ResetForm(f))
  }

  /** `handleEditSlot`: names the selected slot, then resets the form. */
  function HandleEditSlot(f: SlotForm): (r: Handled)
    ensures r.notice.title == "Parking slot updated"
    ensures r.notice.description == "Slot " + SelectedNumber(f) + " has been updated successfully."
    ensures r.form == ResetForm(f)
  {
    Handled(Toasts.Notice("Parking slot updated", "Slot " + SelectedNumber(f) + " has been updated successfully.", false),
            ResetForm(f))
  }

  /** `handleDeleteSlot`: names the selected slot and clears only the
      selection; the other form fields keep their values. */
  function HandleDeleteSlot(f: SlotForm): (r: Handled)
    ensures r.notice.title == "Parking slot deleted"
    ensures r.notice.description == "Slot " + SelectedNumber(f) + " has been removed."
    ensures r.form.selected.None?
    ensures r.form.(selected := f.selected) == f
  {
    Handled(Toasts.Notice("Parking slot deleted", "Slot " + SelectedNumber(f) + " has been removed.", false),
            f.(selected := None))
  }

  /** `openDeleteDialog`: select the slot and touch nothing else. */
  function OpenDeleteDialog(f: SlotForm, s: ParkingSlot): (r: SlotForm)
    ensures r.selected == Some(s)
    ensures r.(selected := f.selected) == f
  {
    f.(selected := Some(s))
  }

  /** Deleting after opening the delete dialog on a row names that row and
      gives back the form as it was before the dialog opened, selection
      apart. */
  lemma DeleteNamesOpenedRow(f: SlotForm, s: ParkingSlot)
    ensures var h := HandleDeleteSlot(OpenDeleteDialog(f, s));
      h.notice.description == "Slot " + s.slotNumber + " has been removed."
      && h.form == f.(selected := None)
  {
  }
}
