# ParkMaster front-end decision logic in Dafny

A model of the decision logic in the ParkMaster parking-management web
front end (MuhirwaVerygood/vehicle_space_manager). The screens themselves are
not modelled. What is modelled is the logic inside the components and hooks,
written as pure functions over immutable datatypes:

- **Toast store.** The reducer in `use-toast.ts` holds a list of at most 20
  toasts and handles ADD, UPDATE, DISMISS and REMOVE actions. Also modelled:
  the id counter, `toast` and `update`.
- **Session state machine.** `AuthContext.tsx` covers startup, login,
  register, logout, profile update and password update. The browser's
  `localStorage` is modelled as two optional fields. Each backend call is an
  input, `Reply` = `Ok(value)` or `Failed(message)`.
- **List views.** The Vehicles, Slot Requests, Parking Slots and User
  Management pages each do the same three things. They filter rows by owner,
  search them case-insensitively, and show 10 rows per page with clamped
  Previous/Next buttons. This logic is modelled once, in `ListQuery`, with one
  matching predicate per kind of row.
- **Per-page rules.** Which buttons a row offers for a given role and status,
  when the approve and reject buttons are disabled, and how forms reset and
  load. The submit handlers are modelled as the toast they raise plus the
  form state they leave behind.
- **Form validation.** Registration, settings and vehicle creation.
- **Header and sidebar.** The header's initials, title and logout; the
  sidebar's role filter.

Roles stay plain strings throughout, because the code compares them in two
vocabularies:

- The list pages (Vehicles, Slot Requests, Parking Slots, User Management),
  the header and the User Management access check compare with `"admin"`.
- The sidebar and the registration form use `"USER"` and `"ADMIN"`.

`RoleStrings` proves what this mixture does.

JavaScript semantics that matter are written out:

- `Array.prototype.slice` bounds, including negative ones.
- `Math.ceil(n / 10)`.
- Truthiness: `""` and a missing value are both falsy, and `||` falls back on them.
- `String.prototype.includes`.
- `{ id, ...props }` spread precedence.
- `split(' ')`, which keeps empty pieces.
- `toLowerCase` / `toUpperCase`, restricted to ASCII.

Module layout, one file each:

| module | file |
|---|---|
| `Wrappers` | wrappers.dfy |
| `AsciiText` | ascii_text.dfy |
| `ListQuery` | list_query.dfy |
| `ParkingTypes` | parking_types.dfy |
| `Session` | session.dfy |
| `Access` | access.dfy |
| `Toasts` | toasts.dfy |
| `VehiclesPage` | vehicles_page.dfy |
| `SlotRequestsPage` | slot_requests_page.dfy |
| `ParkingSlotsPage` | parking_slots_page.dfy |
| `UserManagementPage` | user_management_page.dfy |
| `RegisterPage` | register_page.dfy |
| `SettingsPage` | settings_page.dfy |
| `CreateVehicleForm` | create_vehicle_form.dfy |
| `Header` | header.dfy |
| `Sidebar` | sidebar.dfy |
| `RoleStrings` | role_strings.dfy |

## Model

| member | source | states |
|---|---|---|
| Wrappers.OrElse | src/pages/SlotRequests.tsx:438-438 | `s \|\| fallback`: the string itself when it is truthy, the fallback when it is missing or empty. |
| ParkingTypes.VehicleTypeCode | src/types/vehicle.ts:6-6 | Each vehicle type has a code, and the code parses back to that type. |
| ParkingTypes.VehicleSizeCode | src/types/vehicle.ts:7-7 | Each size has a code, and the code parses back to that size. |
| ParkingTypes.ApprovalStatusCode | src/types/vehicle.ts:13-13 | Each approval status has a code, and the code parses back to that status (also src/types/parking.ts:28). |
| ParkingTypes.SlotStatusCode | src/types/parking.ts:8-8 | Each slot status has a code, and the code parses back to that status. |
| Toasts.AddToList | src/hooks/use-toast.ts:57-61 | ADD puts the new toast first and keeps the old toasts after it in order. The length is min(old + 1, 20). |
| Toasts.UpdateList | src/hooks/use-toast.ts:63-69 | UPDATE keeps the length and every id. A toast whose id is not the patch's id is unchanged. A toast whose id matches shows every field the patch supplies and keeps every field the patch omits. |
| Toasts.DismissList | src/hooks/use-toast.ts:71-97 | DISMISS changes nothing but `open`. The targeted toasts, or all toasts when no id is given, get `open = false`. The others are unchanged. |
| Toasts.RemoveList | src/hooks/use-toast.ts:98-108 | REMOVE without an id empties the list. With an id it drops exactly the toasts with that id and keeps the rest in order, as a subsequence, each as often as in the input. |
| Toasts.Reduce | src/hooks/use-toast.ts:55-112 | The reducer never takes a list of at most 20 above 20. Only ADD can grow the list. An unknown action returns the state unchanged. |
| Toasts.ReplayWithinLimit | src/hooks/use-toast.ts:6-6 | Any sequence of dispatches from a state within the limit stays within TOAST_LIMIT = 20. |
| Toasts.UpdateIdempotent | src/hooks/use-toast.ts:63-69 | Applying the same update twice equals applying it once. |
| Toasts.DismissIdempotent | src/hooks/use-toast.ts:71-97 | Dismissing twice equals dismissing once. |
| Toasts.RemoveIdempotent | src/hooks/use-toast.ts:98-108 | Removing twice equals removing once. |
| Toasts.DecimalString | src/hooks/use-toast.ts:26-26 | `toString` of a counter value gives decimal digits with no leading zero. |
| Toasts.DecimalRoundTrip | src/hooks/use-toast.ts:26-26 | Parsing the decimal text of n gives back n. |
| Toasts.GenerateId | src/hooks/use-toast.ts:23-27 | `generateId` pre-increments the counter and returns the text of the new value. |
| Toasts.GeneratedIdsDistinct | src/hooks/use-toast.ts:23-27 | Different counter values give different ids. |
| Toasts.SuccessiveIdsDistinct | src/hooks/use-toast.ts:23-27 | An id generated later never repeats an earlier one. |
| Toasts.ToastAsWritten | src/hooks/use-toast.ts:122-129 | `toast` as written. A truthy caller id is returned and the counter is untouched. Otherwise the counter advances and the returned id is the text of its new value. The stored toast comes first and carries the caller's id whenever one is present, even `""`, otherwise the returned id. The older toasts follow, truncated to 19. |
| Toasts.ToastAsWrittenLosesEmptyId | src/hooks/use-toast.ts:123-124 | With caller id `""`, the dispatched toast has id `""` but the returned id is a fresh, different one. |
| Toasts.ShowToast | src/hooks/use-toast.ts:122-129 | Corrected `toast`: the new toast is first and carries exactly the id returned. That id is the caller's when truthy, otherwise the next counter value. The older toasts follow, truncated to 19. |
| Toasts.Update | src/hooks/use-toast.ts:131-137 | `update` without a truthy id changes nothing. With a truthy id it dispatches UPDATE: the result is `UpdateList` of the patch, so the matching toast shows the patched fields, the others are unchanged, and the length and every id are kept. |
| Session.InitialState | src/contexts/AuthContext.tsx:15-21 | No user, not authenticated, loading, no error; the token is the stored one. |
| Session.Bootstrap | src/contexts/AuthContext.tsx:28-62 | Startup ends not loading. It ends authenticated iff a truthy token is stored and fetching the user succeeds, and then with that user and token. A failed fetch wipes the stored token and user and records "Session expired. Please login again.". With no token, no user and no error. |
| Session.Login | src/contexts/AuthContext.tsx:64-96 | Success stores and installs the user and token. Failure keeps user, token and the authenticated flag, stops loading, keeps storage, and records the server message or the default text. |
| Session.Register | src/contexts/AuthContext.tsx:98-128 | The same as login, with the registration default message. |
| Session.Logout | src/contexts/AuthContext.tsx:130-138 | Everything is cleared, in memory and in storage. |
| Session.UpdateProfile | src/contexts/AuthContext.tsx:144-173 | With no user, nothing changes. Success replaces only the user, in memory and in storage, and clears loading and error. Failure records the message and keeps the user. |
| Session.UpdatePassword | src/contexts/AuthContext.tsx:175-201 | Never changes the user, token, authenticated flag or storage. With no user, nothing changes. Otherwise loading stops and the error reflects the outcome. |
| Session.StepPreservesConsistency | src/contexts/AuthContext.tsx:64-201 | Every transition keeps the invariant: if authenticated, a user and a token are present and the stored token equals the token in memory. |
| Session.RunPreservesConsistency | src/contexts/AuthContext.tsx:64-201 | The invariant holds after any sequence of calls from a consistent state. |
| Session.RunFromStartConsistent | src/contexts/AuthContext.tsx:28-62 | Startup yields a consistent state, so every reachable state is consistent. |
| Session.FailuresAreRecorded | src/contexts/AuthContext.tsx:85-95 | No call rejects. A failed login or register, or a failed profile or password update while signed in, ends not loading with a non-empty error. |
| Access.CanSeeRowCases | src/pages/Vehicles.tsx:105-105 | Admins see every row and signed-out visitors none. Anyone else sees exactly the rows whose owner is their id. |
| ListQuery.Filter | src/pages/Vehicles.tsx:103-115 | Filtering keeps exactly the rows that pass, in their order, as a subsequence of the input. Each kept row appears as many times as in the input. |
| ListQuery.FilterKeepsAll | src/pages/ParkingSlots.tsx:121-126 | A test every row passes keeps the whole list. |
| ListQuery.FilterAppend | src/components/layouts/Sidebar.tsx:64-66 | Filtering a concatenation filters each part. |
| ListQuery.FilterCongruent | src/pages/Vehicles.tsx:108-112 | Two tests that agree on every row give the same list. |
| ListQuery.TotalPages | src/pages/SlotRequests.tsx:156-156 | `Math.ceil(n / 10)`: the least number of pages of 10 holding n rows; 0 exactly when n is 0. |
| ListQuery.JsSlice | src/pages/SlotRequests.tsx:157-160 | `slice` with JavaScript's bound rules: both bounds are normalised (negative counts from the end, clamped to the length). The result holds max(end - start, 0) rows, and row k is input row start + k. |
| ListQuery.PageSlice | src/pages/SlotRequests.tsx:155-160 | A page holds at most 10 rows. Row k of page p is filtered row (p-1)*10+k. A page is empty iff it starts at or after the end. Pages before the last are full; the last holds the remainder. |
| ListQuery.PagesPartitionList | src/pages/UserManagement.tsx:159-164 | Pages 1 to totalPages, joined in order, give back exactly the filtered list. |
| ListQuery.ShowingRange | src/pages/Vehicles.tsx:399-401 | The caption's last row number never exceeds n. On page 1 or later its first row number is at least 1. |
| ListQuery.ShowingRangeMatchesPage | src/pages/Vehicles.tsx:396-401 | On every existing page the caption "Showing a to b" names exactly the rows shown. |
| ListQuery.ShowingRangePastEnd | src/pages/Vehicles.tsx:399-401 | Past the last page the caption runs backwards (first > last). |
| ListQuery.PaginationVisibleIff | src/pages/SlotRequests.tsx:471-471 | The pager is drawn exactly when more than 10 rows match. |
| ListQuery.PreviousPage | src/pages/SlotRequests.tsx:476-479 | Previous is inert on page 1; otherwise it moves to page-1, never below 1. |
| ListQuery.NextPage | src/pages/SlotRequests.tsx:494-497 | Next is inert on or past the last page; otherwise it moves to page+1. |
| ListQuery.PagerStaysInRange | src/pages/ParkingSlots.tsx:414-436 | From a page in [1, totalPages], both buttons stay in [1, totalPages]. |
| ListQuery.PagerRoundTrip | src/pages/UserManagement.tsx:444-467 | Away from the ends, Next undoes Previous and Previous undoes Next. |
| ListQuery.SetSearchTerm | src/pages/SlotRequests.tsx:354-355 | As written, typing a search term keeps the current page number. |
| ListQuery.StaleSearchPageIsEmpty | src/pages/SlotRequests.tsx:157-160 | On page 2, a search leaving between 1 and 10 matches shows an empty page, and no pager is drawn to go back. |
| ListQuery.SetSearchTermResetting | src/pages/SlotRequests.tsx:354-355 | Corrected search change: the term is set and the page returns to 1. |
| ListQuery.ResettingSearchShowsFirstRows | src/pages/SlotRequests.tsx:155-160 | After the corrected change the table shows the first matches, and is never empty while something matches. |
| AsciiText.Lower | src/pages/Vehicles.tsx:109-109 | `toLowerCase` on ASCII: same length, no capitals left, each character equal up to case. |
| AsciiText.Upper | src/components/layouts/Header.tsx:20-20 | `toUpperCase` on ASCII: same length, no small letters left, each character equal up to case. |
| AsciiText.LowerOfUpper | src/pages/Vehicles.tsx:109-109 | Lower-casing after upper-casing is the same as lower-casing. |
| AsciiText.LowerIdempotent | src/pages/Vehicles.tsx:109-109 | Lower-casing twice is the same as lower-casing once. |
| AsciiText.Contains | src/pages/Vehicles.tsx:109-109 | `includes` is true iff the needle occurs at some position of the text. |
| AsciiText.IncludesIgnoresCase | src/pages/Vehicles.tsx:108-112 | The search test gives the same answer whatever the case of the field or of the term. |
| AsciiText.EmptyTermMatches | src/pages/SlotRequests.tsx:145-149 | The empty search term matches every field. |
| AsciiText.IncludesExactOccurrence | src/pages/UserManagement.tsx:151-156 | A field containing the term verbatim matches it. |
| VehiclesPage.FilteredVehicles | src/pages/Vehicles.tsx:103-115 | Exactly the rows the viewer may see whose plate, type, or truthy color or model contains the term (ignoring case), in order, each as often as in the input. |
| VehiclesPage.NonAdminSeesOwnVehicles | src/pages/Vehicles.tsx:105-105 | A non-admin is listed only their own vehicles; a signed-out visitor none. |
| VehiclesPage.AdminEmptySearchListsAll | src/pages/Vehicles.tsx:103-115 | An admin with an empty search sees every vehicle, in order. |
| VehiclesPage.SearchIgnoresCase | src/pages/Vehicles.tsx:108-112 | Upper-casing the term lists the same vehicles. |
| VehiclesPage.MissingAttributesNeverMatch | src/pages/Vehicles.tsx:111-112 | An absent or empty color or model is never searched. |
| VehiclesPage.VehicleRowActions | src/pages/Vehicles.tsx:330-369 | Approve and reject come together, and only for admins. Edit and delete come together, and always for non-admins. |
| VehiclesPage.RowActionsByStatus | src/pages/Vehicles.tsx:330-351 | No row offers review and management at once. An admin reviews exactly pending vehicles and manages exactly approved ones. A rejected or status-less vehicle offers an admin nothing. |
| VehiclesPage.VehiclesPrevious | src/pages/Vehicles.tsx:404-411 | Previous is disabled on page 1; on any other page it moves to page - 1. From page 1 or later it never goes below 1. |
| VehiclesPage.VehiclesNext | src/pages/Vehicles.tsx:412-419 | Next is disabled on the last page; on any other page, even one past the end, it moves to page + 1. From a page within range it never passes the last page. |
| VehiclesPage.VehiclesPagerRange | src/pages/Vehicles.tsx:404-419 | Inside [1, totalPages] both buttons stay inside. Past the last page Next stays enabled and keeps climbing. |
| VehiclesPage.VehiclesPagerMatchesClamped | src/pages/Vehicles.tsx:404-419 | Within [1, totalPages] the Vehicles buttons agree with the clamped pager of the other list pages, and Next undoes Previous (and the reverse) away from the ends. |
| VehiclesPage.ResetForm | src/pages/Vehicles.tsx:125-133 | Every field is emptied and the selection cleared. |
| VehiclesPage.OpenEditDialog | src/pages/Vehicles.tsx:186-194 | The form takes the vehicle's plate, type, size and its color and model (or ""); the reason field is untouched. |
| VehiclesPage.EditFormRoundTrip | src/pages/Vehicles.tsx:186-194 | For a vehicle with a color and a model, reading the edit form back gives the vehicle. |
| VehiclesPage.OpenDialog | src/pages/Vehicles.tsx:196-209 | The delete, approve and reject dialogs select the vehicle and change nothing else. |
| VehiclesPage.HandleCreateVehicle | src/pages/Vehicles.tsx:135-143 | The toast names the submitted plate, then the form is reset. |
| VehiclesPage.HandleEditVehicle | src/pages/Vehicles.tsx:145-153 | The toast names the plate typed in the form, then the form is reset. |
| VehiclesPage.HandleDeleteVehicle | src/pages/Vehicles.tsx:155-163 | The toast names the selected vehicle; only the selection is cleared. |
| VehiclesPage.HandleApproveVehicle | src/pages/Vehicles.tsx:165-173 | The toast names the selected vehicle; only the selection is cleared. |
| VehiclesPage.HandleRejectVehicle | src/pages/Vehicles.tsx:175-184 | The toast names the selected vehicle. The selection and the reason are cleared, so the reject button starts disabled. |
| VehiclesPage.DialogNamesOpenedRow | src/pages/Vehicles.tsx:155-209 | Confirming a dialog opened on a row names that row's plate. Approving gives back the pre-dialog form, less the selection. |
| VehiclesPage.StatusBadge | src/pages/Vehicles.tsx:211-240 | No badge without a status; green, yellow or red classes for approved, pending and rejected. |
| VehiclesPage.StatusBadgesDistinct | src/pages/Vehicles.tsx:217-233 | Different statuses get different badges. |
| SlotRequestsPage.FilteredRequests | src/pages/SlotRequests.tsx:140-152 | Exactly the visible requests whose plate, location, status or truthy requester name contains the term, in order, each as often as in the input. |
| SlotRequestsPage.NonAdminSeesOwnRequests | src/pages/SlotRequests.tsx:142-142 | A non-admin is listed only their own requests. |
| SlotRequestsPage.AdminEmptySearchListsAll | src/pages/SlotRequests.tsx:140-152 | An admin with an empty search sees every request. |
| SlotRequestsPage.RequestsPage | src/pages/SlotRequests.tsx:157-160 | The shown page has at most 10 requests, taken in order from the filtered list, and is empty past the last page. |
| SlotRequestsPage.RequestRowActions | src/pages/SlotRequests.tsx:398-444 | Approve and reject appear iff an admin views a pending request. The slot badge appears iff a non-admin views an approved request with a slot, and shows that slot's number. "View Reason" appears iff a non-admin views a rejected request. |
| SlotRequestsPage.RowGroupsExclusive | src/pages/SlotRequests.tsx:398-444 | At most one button group per row. Admins never get the requester's buttons, requesters never the review buttons. |
| SlotRequestsPage.ReasonText | src/pages/SlotRequests.tsx:436-439 | The reason toast shows the reason, or "No reason provided" when it is missing or empty; never empty text. |
| SlotRequestsPage.ResetForm | src/pages/SlotRequests.tsx:162-171 | All seven fields are emptied and the selection cleared, so both dialog buttons start disabled. |
| SlotRequestsPage.OpenReviewDialog | src/pages/SlotRequests.tsx:203-211 | Opening approve or reject selects the request and changes nothing else. |
| SlotRequestsPage.HandleCreateRequest | src/pages/SlotRequests.tsx:173-181 | Submission toast, then a cleared form. |
| SlotRequestsPage.HandleApproveRequest | src/pages/SlotRequests.tsx:183-191 | The toast names the selected plate; the form is cleared, so approval is disabled again. |
| SlotRequestsPage.HandleRejectRequest | src/pages/SlotRequests.tsx:193-201 | The toast names the selected plate; the form is cleared, so rejection is disabled again. |
| SlotRequestsPage.ReviewNamesOpenedRow | src/pages/SlotRequests.tsx:183-211 | Approving or rejecting after opening the dialog on a row names that row's plate. |
| SlotRequestsPage.RequestStatusColor | src/pages/SlotRequests.tsx:213-224 | Grey exactly for strings that are not one of the three request statuses. |
| SlotRequestsPage.RequestStatusColorsDistinct | src/pages/SlotRequests.tsx:214-220 | The three statuses get three different colors. |
| ParkingSlotsPage.FilteredSlots | src/pages/ParkingSlots.tsx:121-126 | With no ownership test: exactly the slots whose number, location, status or vehicle type contains the term, in order, each as often as in the input. |
| ParkingSlotsPage.EmptySearchListsAll | src/pages/ParkingSlots.tsx:121-126 | An empty search lists every slot. |
| ParkingSlotsPage.StatusSearchFindsSlot | src/pages/ParkingSlots.tsx:124-124 | Searching a slot's status in capitals finds it. |
| ParkingSlotsPage.Controls | src/pages/ParkingSlots.tsx:218-218 | The add, edit and delete controls are rendered exactly for admins (also lines 350 and 367). |
| ParkingSlotsPage.ResetForm | src/pages/ParkingSlots.tsx:136-145 | Prefix "A", count 1, status available; empty number, type, size and location; no selection. |
| ParkingSlotsPage.OpenEditDialog | src/pages/ParkingSlots.tsx:177-185 | The form takes the slot's number, type, size, location and status; prefix and count are untouched. |
| ParkingSlotsPage.EditFormRoundTrip | src/pages/ParkingSlots.tsx:177-185 | Reading the edit form back gives the slot. |
| ParkingSlotsPage.StatusColor | src/pages/ParkingSlots.tsx:192-205 | A total map: grey exactly for strings that are not one of the four slot statuses. |
| ParkingSlotsPage.StatusColorsDistinct | src/pages/ParkingSlots.tsx:193-201 | The four statuses get four different colors. |
| ParkingSlotsPage.IntText | src/pages/ParkingSlots.tsx:151-151 | An integer in a template string: its decimal digits, with "-" when negative. |
| ParkingSlotsPage.HandleCreateSlot | src/pages/ParkingSlots.tsx:147-155 | The toast reports the typed count and prefix, then the form returns to its defaults. |
| ParkingSlotsPage.HandleEditSlot | src/pages/ParkingSlots.tsx:157-165 | The toast names the selected slot, then the form is reset. |
| ParkingSlotsPage.HandleDeleteSlot | src/pages/ParkingSlots.tsx:167-175 | The toast names the selected slot; only the selection is cleared. |
| ParkingSlotsPage.OpenDeleteDialog | src/pages/ParkingSlots.tsx:187-190 | The slot is selected and nothing else changes. |
| ParkingSlotsPage.DeleteNamesOpenedRow | src/pages/ParkingSlots.tsx:167-190 | Deleting after opening the dialog on a slot names it and restores the pre-dialog form, less the selection. |
| UserManagementPage.AccessCheck | src/pages/UserManagement.tsx:80-89 | A destructive "Access denied" toast and a redirect to /dashboard, exactly when a signed-in user's role is not "admin"; with nobody signed in, nothing. |
| UserManagementPage.FilteredUsers | src/pages/UserManagement.tsx:151-156 | Exactly the users whose name, email, role or status contains the term, in order, each as often as in the input. |
| UserManagementPage.EmptySearchListsAll | src/pages/UserManagement.tsx:151-156 | An empty search lists every user. |
| UserManagementPage.AdminSearchFindsAdmins | src/pages/UserManagement.tsx:154-154 | Searching "admin" finds every administrator. |
| UserManagementPage.ToggledStatus | src/pages/UserManagement.tsx:204-204 | Active becomes suspended, anything else active; the status always changes. |
| UserManagementPage.ToggleLabel | src/pages/UserManagement.tsx:407-407 | "Suspend" exactly for active users, "Activate" otherwise. |
| UserManagementPage.ToggleAgreesWithLabel | src/pages/UserManagement.tsx:204-407 | The label names the status the toggle moves to. Two toggles return to the start, except from pending. |
| UserManagementPage.ResetForm | src/pages/UserManagement.tsx:166-172 | Empty name and email, role user, status active, no selection. |
| UserManagementPage.OpenEditDialog | src/pages/UserManagement.tsx:212-219 | The form takes the user's name, email, role and status. |
| UserManagementPage.HandleCreateUser | src/pages/UserManagement.tsx:174-182 | The toast names the typed user and the form is reset; the list is unchanged. |
| UserManagementPage.HandleEditUser | src/pages/UserManagement.tsx:184-192 | The toast names the selected user and the form is reset; the list is unchanged. |
| UserManagementPage.HandleDeleteUser | src/pages/UserManagement.tsx:194-201 | A destructive toast naming the user; nothing else changes. |
| UserManagementPage.HandleToggleStatus | src/pages/UserManagement.tsx:203-210 | The toast announces the status after toggling; nothing else changes. |
| UserManagementPage.EditReportsOriginalName | src/pages/UserManagement.tsx:184-219 | Renaming a user in the dialog still reports the old name. |
| UserManagementPage.HandlersKeepUsers | src/pages/UserManagement.tsx:174-219 | No sequence of handler calls changes the user list. |
| UserManagementPage.StatusColor | src/pages/UserManagement.tsx:221-232 | Grey exactly for strings that are not one of the three account statuses. |
| UserManagementPage.StatusColorsDistinct | src/pages/UserManagement.tsx:222-228 | The three account statuses get three different colors. |
| RegisterPage.RoleValue | src/pages/Register.tsx:9-12 | The enum values are the upper-case strings "USER" and "ADMIN". |
| RegisterPage.HandleSubmit | src/pages/Register.tsx:32-55 | Data is sent iff the passwords agree and have at least 8 characters. A mismatch sets "Passwords do not match" first. A short password sets the length error. Valid input clears the error and sends exactly {name, email, password, role}, with submitting false afterwards. |
| RegisterPage.RedirectTarget | src/pages/Register.tsx:57-59 | Redirect to /dashboard exactly when signed in. |
| RegisterPage.AcceptedRegistrationRedirects | src/pages/Register.tsx:46-59 | A valid form the backend accepts leads to the dashboard. One it rejects stays put with an error. |
| RegisterPage.DefaultRoleIsUser | src/pages/Register.tsx:28-28 | Unless changed, an account is registered with role USER. |
| SettingsPage.InitialForm | src/pages/Settings.tsx:29-37 | The profile fields start from the user's name and email, or empty. The password fields start empty. |
| SettingsPage.SyncProfile | src/pages/Settings.tsx:45-50 | A present user's name and email are copied into the form; with no user it is untouched. |
| SettingsPage.HandleUpdateProfile | src/pages/Settings.tsx:52-71 | As written: sends exactly {name, email} when signed in and always resets submitting. It always shows "Profile updated". |
| SettingsPage.HandleUpdatePassword | src/pages/Settings.tsx:73-105 | As written: a mismatch shows a toast and changes nothing else. Matching passwords of any length are sent when signed in. "Password updated" always follows, the three fields are cleared, and changing is false. |
| SettingsPage.PasswordFailureAnnouncedAsSuccess | src/pages/Settings.tsx:87-95 | A rejected change is announced as done and its fields wiped, while the session records the failure. |
| SettingsPage.ProfileFailureAnnouncedAsSuccess | src/pages/Settings.tsx:56-61 | A rejected profile change is announced as done while the session records the failure. |
| SettingsPage.SignedOutChangeAnnouncedAsSuccess | src/pages/Settings.tsx:87-95 | Signed out, nothing is sent, yet "Password updated" appears. |
| SettingsPage.HandleUpdateProfileReporting | src/pages/Settings.tsx:52-71 | Corrected: success is announced iff signed in and the backend accepted; otherwise "Update failed". |
| SettingsPage.HandleUpdatePasswordReporting | src/pages/Settings.tsx:73-105 | Corrected: the same request and session change as written, with changing false afterwards. |
| SettingsPage.PasswordSuccessIffChanged | src/pages/Settings.tsx:87-101 | Corrected: "Password updated" appears iff the password changed. Otherwise the typed passwords are kept. |
| SettingsPage.ProfileSuccessIffChanged | src/pages/Settings.tsx:56-67 | Corrected: "Profile updated" appears iff the session holds the returned user, and the form then follows that user. |
| CreateVehicleForm.FormTypeCode | src/components/vehicle/CreateVehicleForm.tsx:85-87 | The select codes are the upper case of the records' type codes. |
| CreateVehicleForm.FormSizeCode | src/components/vehicle/CreateVehicleForm.tsx:104-106 | The select codes are the upper case of the records' size codes. |
| CreateVehicleForm.HandleSubmit | src/components/vehicle/CreateVehicleForm.tsx:32-55 | The validation toast appears iff plate, type or size is missing. Otherwise exactly one record is submitted: the plate, the upper-case type and size codes, and color and model even when empty. |
| CreateVehicleForm.BlankFormRefused | src/components/vehicle/CreateVehicleForm.tsx:26-42 | A fresh form is refused. |
| CreateVehicleForm.SubmittedCodesNeedLowering | src/components/vehicle/CreateVehicleForm.tsx:44-52 | The submitted type and size name the choice once lower-cased, and parse as nothing as they stand. |
| Header.Split | src/components/layouts/Header.tsx:17-17 | `split(' ')`: at least one piece, none containing a space. |
| Header.SplitJoinRoundTrip | src/components/layouts/Header.tsx:17-17 | Joining the pieces with spaces gives the name back. |
| Header.FirstCharsAreWordStarts | src/components/layouts/Header.tsx:16-19 | The first characters of the pieces are exactly the name's word starts (non-space characters at the start or after a space). Empty pieces contribute nothing. |
| Header.GetInitials | src/components/layouts/Header.tsx:15-22 | At most two characters, upper case, no spaces: the first two word starts, upper-cased. |
| Header.InitialsOfFullName | src/components/layouts/Header.tsx:15-22 | "John Doe" gives "JD"; the empty name gives "". |
| Header.AvatarText | src/components/layouts/Header.tsx:81-81 | The user's initials, or "U" when signed out. |
| Header.Title | src/components/layouts/Header.tsx:34-34 | "Admin Portal" exactly when the role is "admin", otherwise "User Dashboard". |
| Header.HandleLogout | src/components/layouts/Header.tsx:24-27 | Logs out, then goes to /login; the title is then "User Dashboard". |
| Sidebar.FilteredNavItems | src/components/layouts/Sidebar.tsx:64-66 | Exactly the entries listing the user's role string, in order; none when signed out. |
| Sidebar.UnknownRoleSeesNothing | src/components/layouts/Sidebar.tsx:64-66 | Any role other than exactly "USER" or "ADMIN", such as "admin", gets an empty sidebar. |
| Sidebar.AdminRoleSeesAll | src/components/layouts/Sidebar.tsx:24-61 | "ADMIN" sees all six entries. |
| Sidebar.UserRoleSeesAllButUsers | src/components/layouts/Sidebar.tsx:24-61 | "USER" sees five entries: everything but User Management. |
| RoleStrings.UserManagementLinkAlwaysDenied | src/components/layouts/Sidebar.tsx:49-54 | Whoever sees the User Management link is turned away by the page. Whoever the page admits has no sidebar. |
| RoleStrings.RegisteredAdminIsNoPageAdmin | src/pages/Register.tsx:9-12 | An ADMIN-registered account sees every sidebar entry but is denied User Management, is no admin on the list pages (Vehicles, Slot Requests, Parking Slots, User Management), and gets the user title. |
| RoleStrings.LowerCaseAdminHasNoNavigation | src/pages/UserManagement.tsx:81-81 | Role "admin" is an admin on the list pages but has no navigation. |
| RoleStrings.NavItemsIgnoringCase | src/components/layouts/Sidebar.tsx:64-66 | Corrected filter: exactly the entries whose role list holds the role, ignoring case, in display order, as a subsequence of the entries. |
| RoleStrings.AccessCheckIgnoringCase | src/pages/UserManagement.tsx:80-89 | Corrected check: denial exactly for signed-in users whose role is not "admin" in any case. |
| RoleStrings.LinkShownIffAdmitted | src/pages/UserManagement.tsx:80-89 | Corrected: the link is shown exactly to the users the page admits, and "ADMIN" qualifies. |

## Left out

- Rendering, CSS classes other than the status colour maps, dialog open/close flags, and routing. Navigation appears only as a route string in the result.
- The empty-state wording and the "first item" buttons of each list. These are display text.
- The page-number links between Previous and Next. They set the page directly and need no model.
- HTTP services. Every backend call is a `Reply` parameter.
- Whether `getCurrentUser` prefers the stored user over a server call. Only its outcome is an input.
- The `sonner` toasts raised inside the session context. That library is not part of this model.
- `localStorage` JSON encoding. Storage is two optional fields.
- Toast timeouts (`toastTimeouts`, `TOAST_REMOVE_DELAY`) and the `useToast` subscription. These are timers and React state.
- `dismiss` and `remove` on the hook. They only dispatch, so `Toasts.Reduce` covers them.
- Settings' notification switches and their toast. They hold no logic.
- Async interleaving and React's batching of state updates. Each handler is one atomic step from the state it read.
- The mock data arrays. The list functions take any rows.
- `Toasts.GenerateId`: does not model precision loss of the JavaScript number counter past 2^53. The counter is an unbounded natural.
- `RegisterPage.HandleSubmit`: compares Dafny's character count with 8, where JavaScript counts UTF-16 code units. The two differ only for characters outside the Basic Multilingual Plane.
- `ParkingSlotsPage.HandleCreateSlot`: the count is an integer, so the `NaN` that `parseInt` yields for a non-numeric entry is not modelled.
- `AsciiText.Lower`: only ASCII letters change case. Full Unicode case mapping is out of scope.
- `Header.GetInitials`: a name is a sequence of Unicode characters, where `charAt(0)` and `substring(0, 2)` count UTF-16 code units. For a word starting outside the Basic Multilingual Plane JavaScript yields a lone surrogate; the model yields the whole character.
- The dashboard page. It compares the role with `"ADMIN"` (src/pages/Dashboard.tsx:38), so an account registered as ADMIN gets the admin dashboard; its statistics are mock data and it is not modelled.
- `AsciiText.Upper`: only ASCII letters change case, so in `Header.GetInitials` a word starting with a lower-case non-ASCII letter (such as "é") keeps it in lower case, where JavaScript would upper-case it.
- `VehiclesPage.StatusBadge`: statuses are a closed datatype, so the grey default for an unknown string cannot arise.
- `UserManagementPage.HandleEditUser`: without a selection the toast shows "undefined". The contract states the description only when a user is selected.
- The `PaginatedResponse` type. The services that use it are outside the model.

## Findings

| source | as written | input that shows it | evidently intended | confidence | as-written member | corrected member |
|---|---|---|---|---|---|---|
| src/pages/Settings.tsx:87-104 | The session context catches every backend error and never rejects. So the handler always shows "Password updated" and clears the fields; its failure branch is dead. The profile handler behaves the same way (lines 56-67). | Signed in, passwords match, backend replies Failed: the toast says "Password updated" and the session error is set. | Success only when the change happened; otherwise "Update failed" with the fields kept. | not executed; follows from the code of both files | SettingsPage.PasswordFailureAnnouncedAsSuccess | SettingsPage.PasswordSuccessIffChanged |
| src/hooks/use-toast.ts:123-124 | `props.id \|\| generateId()` picks the returned id, but the spread `{ id, ...props }` lets `props.id` win in the dispatched toast. | `toast({ id: "" })` returns "1" but stores a toast with id "". Later `update`/`dismiss` with "1" miss it. | The stored toast carries the returned id. | not executed; follows from JavaScript spread order | Toasts.ToastAsWrittenLosesEmptyId | Toasts.ShowToast |
| src/pages/SlotRequests.tsx:355 | Typing a search term leaves `currentPage` unchanged. The Vehicles, ParkingSlots and UserManagement pages do the same. | On page 2, typing a term that leaves 3 matches: the page slice is empty and no pager is drawn. | A new term restarts at page 1. | not executed; follows from the slice arithmetic | ListQuery.StaleSearchPageIsEmpty | ListQuery.ResettingSearchShowsFirstRows |
| src/components/layouts/Sidebar.tsx:53 | The sidebar lists User Management for role "ADMIN", but the page admits only role "admin" (UserManagement.tsx:81). | A user with role "ADMIN" sees the link and is redirected with "Access denied"; a user with role "admin" has no navigation at all. | One role reading for link and page. | not executed; follows from literal string comparison | RoleStrings.UserManagementLinkAlwaysDenied | RoleStrings.LinkShownIffAdmitted |
