# Vendor admin: vendor lifecycle, vendor form and vendor table

This project models the core of the Vendoradmin dashboard in Dafny:

- **The vendor handlers** of `Backend/controllers/authController.js`: add, update, request
  deactivation, reset status, request reactivation and list. They are modelled as the class
  `AuthController.VendorService`, whose state is the `vendors` table (a map from id to row),
  the next id the table hands out, the log of Socket.IO events and the outbox of credential mails.
  - Every handler first checks that the caller's role is `vendor`. Otherwise it answers 403 and
    changes nothing.
  - The per-row status rules live in `VendorRecords`: the refusal reasons, the effect of each
    accepted request, and the `is_active`/`deactivation_status` invariants with lemmas that every
    series of requests keeps them.
- **The vendor form** of `Frontend/src/Pages/Dashboard/CreateUser.js`, in module `VendorForm`:
  - the per-field input filters of `handleInputChange`;
  - the postal-code length table;
  - `validateFields`, as a method with two loops: the required pass, then the format checks in
    source order. It is proved to produce, field by field, exactly the problem a declarative rule
    assigns;
  - the password drop of `handleSave`.
- **The vendor table** of `Frontend/src/Pages/Dashboard/User.js`, in module `VendorList`:
  - the reversed display order;
  - the name/email/contact filter;
  - ten-row pages, the page count, row numbers;
  - the status badge and action button;
  - the component state as the class `VendorList.VendorTable`.

Supporting modules:

- `Wrappers` holds `Option`.
- `Seqs` holds the generic filter, reversal and subsequence, with their lemmas.
- `Text` holds ASCII character classes, JavaScript's `\s`, ASCII case mapping and substring search.

The model follows the handlers:

- Failures are the HTTP answers the handlers give (403, 404, 400 with a reason), not typed errors.
- A duplicate email on insert is a 400, not a conflict.
- `getAllVendors` returns the rows in no specified order.

Inputs the handlers take from the environment are parameters:

- The password hash is the class's `hash` function. bcrypt's salting is not modelled.
- `CURRENT_TIMESTAMP` is the `now` argument.
- The id of the authenticated caller comes in the `Caller` argument.

## Model

| member | source | states |
|---|---|---|
| VendorRecords.NewVendor | Backend/controllers/authController.js:126-141 | a newly inserted row is active with status `active` and no pending request, so it satisfies both status invariants |
| VendorRecords.DeactivationRefusal | Backend/controllers/authController.js:283-293 | a deactivation request is refused exactly when the status is `pending_deactivation` or `deactivated` or the row is inactive; the pending case is reported first |
| VendorRecords.ReactivationRefusal | Backend/controllers/authController.js:393-403 | a reactivation request is refused exactly when the status is `pending_activation`, or the row is active with status `active`; the pending case is reported first |
| VendorRecords.DeactivationRequestEffect | Backend/controllers/authController.js:295-304 | an accepted deactivation request sets status `pending_deactivation`, clears `is_active` and records requester and time; it leaves profile, password digest and creation time alone and keeps both invariants |
| VendorRecords.ReactivationRequestEffect | Backend/controllers/authController.js:405-413 | an accepted reactivation request on a coherent row sets status `pending_activation` and records requester and time; `is_active` is unchanged and stays false |
| VendorRecords.ResetIsIdempotent | Backend/controllers/authController.js:346-355 | a reset gives the same active row from every starting state, with no request recorded; resetting twice equals resetting once |
| VendorRecords.ProfileEditKeepsStatus | Backend/controllers/authController.js:200-237 | a profile edit leaves every status column alone; the digest changes only when a new password is given; both invariants are kept |
| VendorRecords.RunKeepsConsistent | Backend/controllers/authController.js:259-428 | every series of status requests and edits keeps "pending or deactivated implies inactive, active status implies active" |
| VendorRecords.RunKeepsCoherent | Backend/controllers/authController.js:259-428 | from a row as the handlers create it, `is_active` holds exactly in status `active` after any series of requests |
| VendorRecords.RunNeverDeactivates | Backend/controllers/authController.js:259-428 | no handler moves a row into `deactivated` |
| VendorRecords.StatusRequestsKeepProfile | Backend/controllers/authController.js:259-428 | status requests never change the profile, the password digest or the creation time |
| VendorRecords.InsertKeepsEmailsUnique | Backend/controllers/authController.js:114-122 | inserting a row whose email no row has keeps the emails pairwise distinct |
| AuthController.VendorService.AddVendor | Backend/controllers/authController.js:78-160 | 403 and no change for a non-`vendor` caller; 400 and no change when any of the nine fields is empty or the email is taken; otherwise exactly one new row under a fresh id storing `hash(password)`, other rows unchanged, one `vendor_added` event and one account mail with the plaintext password; email uniqueness and coherence are kept |
| AuthController.VendorService.UpdateVendor | Backend/controllers/authController.js:163-256 | 403 or 404 with no change; otherwise the row gets the eight profile columns, the digest changes only for a non-empty password, status columns stay, one `vendor_updated` event, and a mail only when a password was given |
| AuthController.VendorService.RequestVendorDeactivation | Backend/controllers/authController.js:259-322 | 403, 404 or 400 with the refusal reason and no change; otherwise only that row becomes the deactivation-requested row and one `vendor_status_changed` event is logged |
| AuthController.VendorService.ResetVendorStatus | Backend/controllers/authController.js:325-367 | 403 or 404 with no change; otherwise only that row is reset to active with no request and one `vendor_status_changed` event is logged |
| AuthController.VendorService.RequestVendorReactivation | Backend/controllers/authController.js:370-428 | 403, 404 or 400 with the refusal reason and no change; otherwise only that row becomes the reactivation-requested row and one `vendor_status_changed` event is logged |
| AuthController.VendorService.GetAllVendors | Backend/controllers/authController.js:431-468 | 403 for a non-`vendor` caller; otherwise one listing per row, each with the row's current columns, no id twice and no row missing |
| VendorForm.Sanitize | Frontend/src/Pages/Dashboard/CreateUser.js:64-86 | the per-field input filter: letters and white space for name, company name and company type; `[A-Za-z0-9@._-]` for email; alphanumerics upper-cased for GSTIN; digits for pincode; other fields as typed |
| VendorForm.SanitizeOnlyDeletes | Frontend/src/Pages/Dashboard/CreateUser.js:64-86 | each input filter only deletes characters (the GSTIN filter deletes from the upper-cased input); address, password and contact are untouched; filtering twice equals filtering once |
| VendorForm.SanitizedCharacters | Frontend/src/Pages/Dashboard/CreateUser.js:68-79 | after filtering, names and company fields hold only letters and white space, email only `[A-Za-z0-9@._-]`, GSTIN only upper-case letters and digits, pincode only digits |
| VendorForm.KeepAlphanumericsCommutesWithUpper | Frontend/src/Pages/Dashboard/CreateUser.js:74-76 | filtering the GSTIN then upper-casing gives the same as upper-casing then filtering |
| VendorForm.ValidGstinSurvivesFilter | Frontend/src/Pages/Dashboard/CreateUser.js:74-76 | a well-formed GSTIN passes through the GSTIN filter unchanged |
| VendorForm.ValidNameSurvivesFilter | Frontend/src/Pages/Dashboard/CreateUser.js:68-70 | a name of letters and white space passes through the name filter unchanged |
| VendorForm.FilteredGstinFailsOnlyOnShape | Frontend/src/Pages/Dashboard/CreateUser.js:127 | after the filter, a GSTIN is accepted exactly when it has 15 characters with digits at 1, 2, 13 and 15 and an upper-case letter at 14 |
| VendorForm.PincodeLengthByCountry | Frontend/src/Pages/Dashboard/CreateUser.js:54-62 | the expected postal-code length is always between 4 and 8 |
| VendorForm.PincodeLengthIgnoresCase | Frontend/src/Pages/Dashboard/CreateUser.js:61 | the lookup gives the same length for a country code in upper, lower or mixed case |
| VendorForm.PincodeLengthExamples | Frontend/src/Pages/Dashboard/CreateUser.js:55-61 | `IN` needs 6 digits, `br` 8, `Jp` 7, and an unlisted code falls back to 5 |
| VendorForm.RequiredFields | Frontend/src/Pages/Dashboard/CreateUser.js:95-100 | the password is required exactly when not editing |
| VendorForm.RequiredFieldsCover | Frontend/src/Pages/Dashboard/CreateUser.js:95-100 | every field except the password is always required |
| VendorForm.RequiredPassMarks | Frontend/src/Pages/Dashboard/CreateUser.js:105-109 | the required pass marks exactly the empty listed fields, each as required |
| VendorForm.FormatPassMarks | Frontend/src/Pages/Dashboard/CreateUser.js:111-145 | a format check overrides the entry of its field exactly when the value is non-empty and malformed, and leaves every other entry as it was |
| VendorForm.ValidationVerdict | Frontend/src/Pages/Dashboard/CreateUser.js:102-145 | after both passes, each field's entry is its format problem when non-empty, "required" when empty and required, and absent otherwise |
| VendorForm.ValidateFields | Frontend/src/Pages/Dashboard/CreateUser.js:94-149 | the returned error map holds exactly the fields that have a problem, each with that problem, and the result is true exactly when the map is empty |
| VendorForm.FormPassesIff | Frontend/src/Pages/Dashboard/CreateUser.js:102-148 | the form passes exactly when every required field is filled in and every filled-in field has its format; an empty field never gets a format error |
| VendorForm.IsNameText | Frontend/src/Pages/Dashboard/CreateUser.js:112 | a non-empty string of ASCII letters and JavaScript white space |
| VendorForm.IsEmailAddress | Frontend/src/Pages/Dashboard/CreateUser.js:117 | a local part of `[a-zA-Z0-9._%+-]`, one `@`, a domain of `[a-zA-Z0-9.-]`, a dot and at least two letters to the end |
| VendorForm.IsStrongPassword | Frontend/src/Pages/Dashboard/CreateUser.js:122 | at least 8 characters from `[A-Za-z0-9@$!%*?&]`, with a lower-case letter, an upper-case letter, a digit and one of `@$!%*?&` |
| VendorForm.IsGstin | Frontend/src/Pages/Dashboard/CreateUser.js:127 | 15 characters: two digits, ten upper-case letters or digits, a digit, an upper-case letter, a digit |
| VendorForm.FormatProblem | Frontend/src/Pages/Dashboard/CreateUser.js:111-145 | the error each format check records against a non-empty value, with the contact length 10..15, the pincode length from the country table and the five company types |
| VendorForm.FormatExamples | Frontend/src/Pages/Dashboard/CreateUser.js:112-128 | sample GSTINs, passwords and emails are accepted or rejected as the patterns say |
| VendorForm.RequestPayload | Frontend/src/Pages/Dashboard/CreateUser.js:180-184 | the request body is the form with the password key removed exactly when editing with an empty password; every other key and value is the form's |
| VendorList.DisplayOrder | Frontend/src/Pages/Dashboard/User.js:32 | the fetched list reversed |
| VendorList.DisplayOrderIsReversed | Frontend/src/Pages/Dashboard/User.js:32 | the table shows the fetched rows in reverse order: same length, row `k` is fetched row `n-1-k`, same multiset, and reversing back gives the fetched list |
| VendorList.FilterVendors | Frontend/src/Pages/Dashboard/User.js:121-131 | keeps the rows whose non-empty lower-cased name or email includes the lower-cased filter, or whose non-empty contact number includes the filter as typed |
| VendorList.FilterVendorsKeepsExactlyMatches | Frontend/src/Pages/Dashboard/User.js:121-131 | the filter keeps a row exactly when it matches, with its multiplicity, in the original relative order |
| VendorList.NameAndEmailMatchIgnoresCase | Frontend/src/Pages/Dashboard/User.js:123-126 | name and email match the same way whatever the ASCII case of the filter text |
| VendorList.EmptyFilterKeepsFilledRows | Frontend/src/Pages/Dashboard/User.js:122-129 | an empty filter keeps exactly the rows with a non-empty name, email or contact number |
| VendorList.ClampIndex | Frontend/src/Pages/Dashboard/User.js:141 | a `slice` bound lands inside the list, counting from the end when negative |
| VendorList.PageItems | Frontend/src/Pages/Dashboard/User.js:139-141 | `slice` of the filtered list from `page*10-10` to `page*10` |
| VendorList.TotalPages | Frontend/src/Pages/Dashboard/User.js:142 | `Math.ceil(n / 10)` in integer arithmetic |
| VendorList.TotalPagesIsCeiling | Frontend/src/Pages/Dashboard/User.js:142 | the page count is the least number of ten-row pages covering the list, and 0 only for an empty list |
| VendorList.PageItemsWindow | Frontend/src/Pages/Dashboard/User.js:139-141 | page `p` holds at most ten rows: the rows from `(p-1)*10` on, cut short at the end of the list |
| VendorList.EveryRowOnExactlyOnePage | Frontend/src/Pages/Dashboard/User.js:139-142 | row `i` is on page `i/10+1` at position `i%10`, that page is within the page count, and no other page shows it |
| VendorList.WhichPagesHaveRows | Frontend/src/Pages/Dashboard/User.js:139-142 | pages 1 to the page count are non-empty and every later page is empty |
| VendorList.RowNumber | Frontend/src/Pages/Dashboard/User.js:198 | `indexOfFirstUser + index + 1` |
| VendorList.RowNumbersCountRows | Frontend/src/Pages/Dashboard/User.js:198 | the row numbered `n` is the `n`-th row of the filtered list; numbers on page `p` start at `(p-1)*10+1` and run consecutively |
| VendorList.StatusLabel | Frontend/src/Pages/Dashboard/User.js:204-209 | "Active" for an active row, "Inactive" otherwise |
| VendorList.ActionFor | Frontend/src/Pages/Dashboard/User.js:221-237 | the deactivation button for an active row, the reactivation button otherwise |
| VendorList.BadgeAndActionAgree | Frontend/src/Pages/Dashboard/User.js:204-237 | a row shows "Active" and offers deactivation exactly when `is_active`, and otherwise shows "Inactive" and offers reactivation |
| VendorList.OfferedActionMatchesServer | Frontend/src/Pages/Dashboard/User.js:221-237 | for a coherent row, the server always accepts the offered deactivation, and accepts the offered reactivation unless one is already pending |
| VendorList.NextAsWrittenLeavesEmptyList | Frontend/src/Pages/Dashboard/User.js:257-263 | with no rows, "Next" as written stays enabled on page 1 and leads to an empty page 2 beyond the page count |
| VendorList.PressKeepsPageInRange | Frontend/src/Pages/Dashboard/User.js:248-263 | with the corrected "Next" rule (`AfterPress`), pressing either button from a page between 1 and the page count (or page 1 when there are no pages) keeps it there |
| VendorList.AfterPressAsWritten | Frontend/src/Pages/Dashboard/User.js:248-263 | the page after a press as the buttons are written: "Previous" disabled on page 1, "Next" disabled only when the page equals the page count |
| VendorList.NextAsWrittenRunsPastEnd | Frontend/src/Pages/Dashboard/User.js:257-263 | on an empty list, every press of "Next" as written moves to the next page, which is beyond the page count and empty |
| VendorList.PressedPageShowsRowsOrIsFirst | Frontend/src/Pages/Dashboard/User.js:248-263 | with the corrected rule, every page reached by the buttons is page 1 or has rows |
| VendorList.NoServerEventIsHeard | Frontend/src/Pages/Dashboard/User.js:45 | the event name the table subscribes to is none of the names the server emits |
| VendorList.EveryServerEventIsHeard | Frontend/src/Pages/Dashboard/User.js:43-48 | with the corrected subscription (`RefreshesOn`), every event the server emits triggers a refresh |
| VendorList.VendorTable.constructor | Frontend/src/Pages/Dashboard/User.js:14-18 | the table starts empty, on page 1, with an empty filter |
| VendorList.VendorTable.Fetched | Frontend/src/Pages/Dashboard/User.js:29-40 | a successful fetch sets both lists to the fetched rows in display order without re-applying the filter; a failed fetch changes nothing |
| VendorList.VendorTable.Notified | Frontend/src/Pages/Dashboard/User.js:43-48 | the event `vendorUpdated` refetches the list; any other name, including the three the server emits, changes nothing |
| VendorList.VendorTable.Typed | Frontend/src/Pages/Dashboard/User.js:168-170 | typing changes only the filter text, not the shown rows |
| VendorList.VendorTable.ApplyFilter | Frontend/src/Pages/Dashboard/User.js:121-133 | the shown rows become the matching fetched rows and the page resets to 1; the shown rows stay a subsequence of the fetched ones |
| VendorList.VendorTable.Pressed | Frontend/src/Pages/Dashboard/User.js:248-263 | a press moves the page one step unless that button is disabled as written ("Previous" on page 1, "Next" exactly on the last page); the lists and the filter are unchanged |

## Left out

- `login` and `logout` (`Backend/controllers/authController.js:35-75`) are left out. They are bcrypt comparison, JWT signing and cookie handling in foreign libraries.
- The `verifyToken` middleware is left out. The caller's id and role arrive already authenticated in `Caller`.
- bcrypt's salting is not modelled. The hash is a deterministic function, the class's `hash`.
- SQL mechanics are not modelled, and the schema is not part of this model.
  - The insert defaults (`is_active` true, status `active`, no request) are assumed; the table schema is not part of the source.
  - The id sequence is `nextId`.
- The 500 paths are not modelled. Neither is failure or delay of `sendEmail`, `io.emit` or the database. A mail is an entry in `outbox`, an emit is an entry in `events`.
- Concurrent requests and the check-then-write race between them are not modelled. The model is sequential.
- Ids are integers. A non-numeric `:id` path parameter, which would make the query fail, is not modelled.
- Request bodies are strings, with `""` standing for a missing, `null` or otherwise falsy value. Non-string JSON values are not modelled.
- AuthController.VendorService.UpdateVendor: does not check email uniqueness, because the handler does not. An update can therefore break the uniqueness that `AddVendor` keeps, so no uniqueness postcondition is stated for it.
- The event payload is the `RETURNING` columns. HTTP message strings are modelled as response kinds and refusal reasons, not text.
- `toLowerCase`/`toUpperCase` are modelled on ASCII letters only. Case mapping of other Unicode letters is left out, in the list filter and in the country-code lookup. GSTIN upper-casing is exact, because its filter keeps only ASCII characters.
- String lengths are counted in characters, not UTF-16 code units.
- VendorForm.PincodeLengthByCountry: a code naming an inherited property of a JavaScript object (for example `constructor`) does not fall back to 5 in the source. The model treats it as unlisted.
- Validation error texts are modelled as `Problem` kinds. The field label built with `replace` and a regular expression is not modelled.
- `handlePhoneChange` (`CreateUser.js:88-92`) and the country-code state it sets are left out. The country code is an argument of validation. The phone widget is a foreign component.
- The form's load from navigation state, the password visibility toggle and the loading flag are left out. Clearing an error when a field is typed in is left out too. They are UI state with no bearing on the checks.
- The HTTP calls of `handleSave`, `handleDeactivate` and `handleRequestReactivation` are left out. So are their confirmation dialogs and alerts. The server side of each call is modelled by the handler methods.
- The sidebar state, navigation and rendering markup are left out.

## Findings

| source | as written | input that shows it | evidently intended | confidence | as-written member | corrected member |
|---|---|---|---|---|---|---|
| Frontend/src/Pages/Dashboard/User.js:259 | "Next" is disabled only when the page equals the page count | an empty filtered list: the page count is 0, so on page 1 "Next" is enabled and leads to pages 2, 3, … with no rows | disable "Next" on the last page and beyond (`currentPage >= totalPages`) | medium, not executed | VendorList.NextAsWrittenRunsPastEnd | VendorList.PressKeepsPageInRange |
| Frontend/src/Pages/Dashboard/User.js:45 | the table refreshes on the event `vendorUpdated` | any accepted handler call: the server emits `vendor_added`, `vendor_updated` or `vendor_status_changed` (Backend/controllers/authController.js:147), never `vendorUpdated` | refresh on the three names the server emits | high, not executed | VendorList.NoServerEventIsHeard | VendorList.EveryServerEventIsHeard |
