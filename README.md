# vacun — a Dafny model of the record store and its pages

vacun is a browser application for keeping vaccination records. Three kinds of
people use it:

- people, who hold their own records and those of their dependents;
- medical centres, which register patients and their vaccines;
- administrators.

It keeps all of its state in the browser's storage:

- a table of user records (`vacun_users`);
- a session copy of the logged-in record, with the password removed (`vacun_user`);
- a log of issued certificates (`vacun_certificates`).

This project models the following parts in Dafny and proves properties about them:

- **The record store** of `src/contexts/AuthContext.jsx`. It is a class whose
  fields are the table and the session. Its methods are the operations the
  context exposes:
  - registration, login, logout;
  - user update and delete;
  - the vaccine operations with their "acting role" rule;
  - dependents as linked accounts;
  - a medical centre's health professionals.
- **The pages and components that work on that table**: the decisions their
  handlers make, their searches and counters, and the guards before each store
  call.
- **The administrator page's own storage helpers**, which replace whole records
  rather than merging them.
- **The certificate log upsert.**
- **The decidable parts of the certificate generator** `src/utils/pdfGenerator.js`:
  - language selection and bilingual labels;
  - verification code and file name;
  - column widths and row height;
  - a layout model of rows, page breaks, header redraws and footers, in integer
    tenths of a millimetre.

Conventions used throughout:

- A field a JavaScript object may lack is an `Option`.
- A string's JavaScript truthiness is `Text.Truthy` (present and non-empty).
- A shallow merge `{...a, ...b}` is a typed patch whose `None` fields leave the
  old value in place.
- Where the source throws a `TypeError`, the model has an explicit error or
  outcome, and the state is left as it was:
  - `.findIndex` on a record without a vaccine list;
  - `.toLowerCase()` on a missing email.
- Ids and timestamps that the source takes from the clock are parameters.

Modules, one per source file:

| module | source file |
|---|---|
| `Common` | the array methods |
| `Text` | string helpers |
| `Records` | the record shapes |
| `AuthStore` | `src/contexts/AuthContext.jsx` |
| `AdminPage` | `src/pages/AdminPage.jsx` |
| `AdminStats` | `src/pages/AdminPage/AdminStats.jsx` |
| `UserCardAdmin` | `src/pages/AdminPage/UserCardAdmin.jsx` |
| `UserManagementCard` | `src/pages/AdminPage/UserManagementCard.jsx` |
| `CreateUserModal` | `src/pages/AdminPage/CreateUserModal.jsx` |
| `CertificatePage` | `src/pages/CertificatePage.jsx` |
| `PdfText`, `PdfLayout` | `src/utils/pdfGenerator.js` |
| `ManageDependentsPage` | `src/pages/ManageDependentsPage.jsx` |
| `DashboardPage` | `src/pages/DashboardPage.jsx` |
| `DependentDashboardPage` | `src/pages/DependentDashboardPage.jsx` |
| `VaccinationSchemePage` | `src/pages/VaccinationSchemePage.jsx` |
| `MedicalCenterPage` | `src/pages/MedicalCenterPage.jsx` |
| `RegisterPage` | `src/pages/RegisterPage.jsx` |
| `AddDependentPage` | `src/pages/AddDependentPage.jsx` |
| `ProtectedRoute` | `src/components/ProtectedRoute.jsx` and the role lists of `src/App.jsx` |
| `LanguageSelector` | `src/components/LanguageSelector.jsx` |

## Model

| member | source | states |
|---|---|---|
| `Records.MergeUserLaws` | src/contexts/AuthContext.jsx:92 | A shallow merge with an empty patch changes nothing. Merging the same patch twice is merging it once. A patch without an id keeps the record's id. |
| `Records.Strip` | src/contexts/AuthContext.jsx:34-35 | The session copy has no password, and it differs from the record in nothing else. |
| `Records.IndexOfId` | src/contexts/AuthContext.jsx:89 | `findIndex` by id: either -1 with no record having the id, or the first index holding it. |
| `Records.WithoutUser` | src/contexts/AuthContext.jsx:110 | Filtering by id keeps exactly the records with another id and drops every record with that id. |
| `Records.AddThenRemoveVaccine` | src/pages/AdminPage.jsx:141-148 | Removing the id of a freshly appended vaccine (one whose id is new) restores the list as it was. |
| `AuthStore.TemporaryPassword` | src/contexts/AuthContext.jsx:13-15 | The temporary password is `vacun` followed by the whole document id. |
| `AuthStore.IndexOfPatch` | src/contexts/AuthContext.jsx:89 | A patch without an id matches no record; otherwise this is the first index with that id. |
| `AuthStore.RegisteredAccountCanLogIn` | src/contexts/AuthContext.jsx:29-80 | After a registration, the table holds a record that logs in with the document id and the registered password. |
| `AuthStore.DependentAccountShape` | src/contexts/AuthContext.jsx:185-197 | A dependent account has role `user` and is marked converted. It links back to the main account and gets the generated email. It logs in by that email or by the document id with the temporary password. It starts with empty lists and never takes over the session. |
| `AuthStore.AdminEmailRegistersAdmin` | src/contexts/AuthContext.jsx:59-77 | Registering `admin@vacun.org` with no role yields an administrator. Because only the supplied role is checked, this registration also opens a session. |
| `AuthStore.Store.constructor` | src/contexts/AuthContext.jsx:21-27 | The store starts from the stored table and the saved session, and the session carries no password. |
| `AuthStore.Store.Login` | src/contexts/AuthContext.jsx:29-42 | Login succeeds iff some record matches the identifier (by email or document id) and the exact password. The session becomes the first such record, stripped. On failure the session is untouched. The table never changes. |
| `AuthStore.Store.AppendAccount` | src/contexts/AuthContext.jsx:44-72 | A taken email is refused first, then a taken document. Otherwise exactly one record is appended, with all the register defaults, and returned stripped. On failure the table is unchanged. |
| `AuthStore.Store.Register` | src/contexts/AuthContext.jsx:44-80 | As for `AppendAccount`, and the session becomes the new record iff the supplied role is neither `medical_center` nor `admin` and the data is not a converted dependent. |
| `AuthStore.Store.Logout` | src/contexts/AuthContext.jsx:82-85 | The session is cleared and the table kept. |
| `AuthStore.Store.UpdateUser` | src/contexts/AuthContext.jsx:87-105 | The first record with the patch's id is replaced by its shallow merge with the patch, and no other record changes. The session is refreshed only when the session user has that id. An unknown id is "not found" and changes nothing. |
| `AuthStore.Store.DeleteUser` | src/contexts/AuthContext.jsx:107-120 | Every record with the id is removed. The call fails iff none existed. It logs out only when the session user was deleted. It touches no other record's links. |
| `AuthStore.Store.AddVaccineToUser` | src/contexts/AuthContext.jsx:123-141 | The vaccine, with the fresh id, becomes the last of the user's list, and other records are unchanged. The session is refreshed only for the session user under acting role `user` or `dependent_converted`. An unknown user is "not found". |
| `AuthStore.Store.UpdateVaccineForUser` | src/contexts/AuthContext.jsx:143-164 | It reports a missing user, a missing vaccine list (the source's TypeError) and a missing vaccine, each leaving everything unchanged. Otherwise it merges the first vaccine with the id in place, keeping the list's length, with the same refresh rule. |
| `AuthStore.Store.DeleteVaccineForUser` | src/contexts/AuthContext.jsx:166-183 | Every vaccine with the id is removed. The call succeeds even when none matched. A missing user or vaccine list is an error with no change. It uses the same refresh rule. |
| `AuthStore.Store.AddVaccineToDependent` | src/contexts/AuthContext.jsx:262-264 | The add on the dependent's own record, under acting role `dependent_converted`. The main account id is ignored. |
| `AuthStore.Store.UpdateVaccineForDependent` | src/contexts/AuthContext.jsx:266-268 | The update on the dependent's record, under acting role `dependent_converted`. |
| `AuthStore.Store.DeleteVaccineForDependent` | src/contexts/AuthContext.jsx:270-272 | The delete on the dependent's record, under acting role `dependent_converted`. |
| `AuthStore.Store.AddDependentToUser` | src/contexts/AuthContext.jsx:185-216 | It registers the dependent account. If that registration fails, the table and session stay as they were and nothing is linked. If it succeeds, it appends the new id to the main account's `dependents` and returns the temporary password. The session is refreshed when the main account is the session user. |
| `AuthStore.Store.UpdateDependentForUser` | src/contexts/AuthContext.jsx:218-239 | Only a record with that id that links back to the main account is merged, always overwriting `relationship`. Otherwise the result is "not found" with no change. |
| `AuthStore.Store.DeleteDependentForUser` | src/contexts/AuthContext.jsx:241-260 | When the deletion fails, nothing changes and the `dependents` list is kept. Otherwise the record is gone and its id is unlinked from the main account. |
| `AuthStore.Store.AddHealthProfessional` | src/contexts/AuthContext.jsx:274-292 | Only a record with the id and role `medical_center` receives the professional (with the fresh id) at the end of its list. Other ids are "medical centre not found". |
| `AuthStore.Store.UpdateHealthProfessional` | src/contexts/AuthContext.jsx:294-315 | It distinguishes a missing centre, a missing list and a missing professional. Otherwise it merges the first professional with the id in place. |
| `AuthStore.Store.DeleteHealthProfessional` | src/contexts/AuthContext.jsx:317-334 | Every professional with the id is removed from the centre's list. A missing centre or list is an error with no change. |
| `AdminPage.LoadData` | src/pages/AdminPage.jsx:98-105 | The same records in the same order, each with its vaccine list defaulted to empty and nothing else changed. |
| `AdminPage.LoadDataKeepsTotals` | src/pages/AdminPage.jsx:98-105 | Loading keeps both the record count and the vaccine total. |
| `AdminPage.UpdateUserInStorage` | src/pages/AdminPage.jsx:111-118 | The first record with the id is replaced whole, with no merge. An absent id is a silent no-op. The session is never touched. |
| `AdminPage.AddVaccineToUserInStorage` | src/pages/AdminPage.jsx:120-127 | The vaccine goes last in the user's list, and other users are unchanged. The vaccine total grows by one, or by zero for an unknown user. |
| `AdminPage.UpdateVaccineInStorage` | src/pages/AdminPage.jsx:129-139 | The first vaccine with the id is replaced whole. A missing user, list or vaccine changes nothing. The vaccine total is kept. |
| `AdminPage.DeleteVaccineFromUserInStorage` | src/pages/AdminPage.jsx:141-148 | Every vaccine with the id goes. An unknown user changes nothing. A user without a vaccine list makes `filter` throw, and nothing changes. The vaccine total never grows. |
| `AdminPage.HandleDeleteUser` | src/pages/AdminPage.jsx:161-169 | After confirmation, no record with the id remains. There is no "not found" case and the session is not touched. |
| `AdminPage.HandleSaveVaccine` | src/pages/AdminPage.jsx:171-182 | An edited vaccine replaces, whole, the first vaccine with its own id in the user's list. A missing user or vaccine changes nothing, and a user without a vaccine list makes it throw with nothing changed; the vaccine total is kept. A new vaccine is appended to the user's list (an empty one when missing) under the id `vaccine-<now>`. |
| `AdminPage.HandleCreateUser` | src/pages/AdminPage.jsx:192-212 | It is rejected iff a required field is empty, or the centre name is empty for a medical centre. A valid form is registered iff neither its email nor its document is taken, and a failure names the duplicate, email first, with nothing changed. On success the new record is appended and returned stripped, and the session becomes it exactly when `register` opens one (see Findings). |
| `AdminPage.CreatedUserTakesOverSession` | src/contexts/AuthContext.jsx:74-77 | An account created with role `user` opens a session as that account, and `/admin` then redirects the new session to `/dashboard`. |
| `AdminPage.HandleCreateUserKeepingSession` | src/pages/AdminPage.jsx:192-212 | The same guard, the same duplicate rule and the same appended record, returned stripped, with the administrator's session kept in every case. |
| `AdminPage.AdminSearch` | src/pages/AdminPage.jsx:214-223 | The result is an order-preserving subsequence holding exactly the matching users, each as many times as the table holds it, and no other record. Name, email, country and role are matched case-insensitively; the document id is matched as typed. A record whose unguarded email or document id is missing makes the filter throw. |
| `AdminPage.AdminSearchEmptyTerm` | src/pages/AdminPage.jsx:214-223 | An empty term keeps every user. |
| `AdminPage.Stats` | src/pages/AdminPage.jsx:225-228 | Over the loaded table: the user stat is its length, and the vaccine stat is the sum of the loaded records' vaccine-list lengths, a missing list counting 0. It is therefore zero iff no loaded record has a vaccine. |
| `AdminPage.CertificateSubject` | src/pages/AdminPage.jsx:240-245 | A certificate is refused iff no loaded record has the id, or the first one that does has no vaccines. Otherwise the subject is that first record. |
| `AdminStats.TotalUsers` | src/pages/AdminPage/AdminStats.jsx:10 | At most the table's length, and equal to it iff no record is marked `isDependent`. |
| `AdminStats.TotalDependents` | src/pages/AdminPage/AdminStats.jsx:11 | At most the table's length, and equal to it iff every record is marked `isDependent`. |
| `AdminStats.TotalMedicalCenters` | src/pages/AdminPage/AdminStats.jsx:12 | At most the table's length. Zero iff no record has role `medical_center`, and equal to the length iff every record has it. |
| `AdminStats.TotalsAppend` | src/pages/AdminPage/AdminStats.jsx:10-12 | Appending a record raises the user, dependent and medical-centre counters by one exactly when the record is of that kind, and leaves them otherwise. With all three at zero on the empty table, each counter is the number of records of its kind. |
| `AdminStats.TotalVaccines` | src/pages/AdminPage/AdminStats.jsx:13 | Zero iff every vaccine list is missing or empty, and at least each single list's length. |
| `AdminStats.UsersAndDependentsPartition` | src/pages/AdminPage/AdminStats.jsx:10-11 | Users and dependents add up to the table's length. |
| `AdminStats.TotalVaccinesUpdate` | src/pages/AdminPage/AdminStats.jsx:13 | Replacing one record changes the total by exactly the change in that record's list length. |
| `UserCardAdmin.RoleInfo` | src/pages/AdminPage/UserCardAdmin.jsx:30-37 | A converted dependent always gets the dependent badge. Otherwise `admin` and `medical_center` get theirs, and every other role, or none, gets the user badge. |
| `UserCardAdmin.CardActions` | src/pages/AdminPage/UserCardAdmin.jsx:59-68 | Edit is always the first button. Add-vaccine and certificate appear together, exactly for role `user`. Delete appears, last, for every record except `admin-0`. |
| `UserCardAdmin.BadgeAndActionsDiffer` | src/pages/AdminPage/UserCardAdmin.jsx:60-68 | A converted dependent with role `user` shows the vaccine actions under a dependent badge. A record without a role shows the user badge but not the actions. |
| `UserManagementCard.CardSearch` | src/pages/AdminPage/UserManagementCard.jsx:14-23 | The result is an order-preserving subsequence holding exactly the matching users, each as many times as the list holds it, and no other record. Missing fields never match, and the role is matched through its translated label. |
| `UserManagementCard.EmptyTermKeepsAll` | src/pages/AdminPage/UserManagementCard.jsx:16 | An empty term keeps every user. |
| `CreateUserModal.DataToRegister` | src/pages/AdminPage/CreateUserModal.jsx:26-29 | `medicalCenterName` is present iff the role is `medical_center`, and then holds the typed name. Every other typed field (names, email, password, document, birth date, phone, role, country) is passed on. No id, list, link or flag is added. |
| `CreateUserModal.HandleCreate` | src/pages/AdminPage/CreateUserModal.jsx:21-30 | It is rejected iff a required field is empty, or the centre name is empty for a medical centre. Otherwise the stripped data is submitted. |
| `CreateUserModal.FormAfter` | src/pages/AdminPage/CreateUserModal.jsx:30-33 | The form resets, to the default role `user`, only on success. |
| `CreateUserModal.SubmittedFormRegistersAsTyped` | src/pages/AdminPage/CreateUserModal.jsx:21-30 | A form that passes the guard registers with exactly the typed email and role. |
| `CertificatePage.Decimal` | src/pages/CertificatePage.jsx:48 | A count renders as a string of digits that denotes exactly that count, with no leading zero, one digit long iff the count is below ten. |
| `CertificatePage.EntryIndex` | src/pages/CertificatePage.jsx:42 | -1 when no entry has that user, or else the first entry that does. |
| `CertificatePage.UpsertedShape` | src/pages/CertificatePage.jsx:55-59 | The first entry of that user is merged with the new one in place, or the new entry is appended. No other entry changes, and the log grows by at most one. |
| `CertificatePage.UpsertedIdempotent` | src/pages/CertificatePage.jsx:55-59 | Recording the same entry twice equals recording it once. |
| `CertificatePage.UpsertedKeepsOnePerUser` | src/pages/CertificatePage.jsx:55-59 | A log with one entry per user keeps that property. |
| `CertificatePage.CertificateLog.Upsert` | src/pages/CertificatePage.jsx:41-60 | The find-then-assign-or-push step leaves the log as the upsert function says. |
| `CertificatePage.GenerateAndDownload` | src/pages/CertificatePage.jsx:16-60 | Without a user or vaccines, nothing is generated and the log is untouched. If generation fails, the log is untouched. Otherwise the entry (`Unificado`, downloaded, `n vacuna(s)`) is upserted, with its vaccination date and issue date taken from two separate clock reads. |
| `PdfText.LocalLang` | src/utils/pdfGenerator.js:18 | The part of the tag before the first `-`, or `es` without a tag. |
| `PdfText.SecondaryLang` | src/utils/pdfGenerator.js:24-28 | The second language is `es` for `en` and `en` for every other primary language, so it is never the primary one. |
| `PdfText.PdfLabel` | src/utils/pdfGenerator.js:20-38 | The label starts with the primary translation. It becomes `A / B` iff the key starts with `pdf`, the secondary translation differs, and the secondary is not the raw key. |
| `PdfText.HeaderTitles` | src/utils/pdfGenerator.js:69-79 | The main title is in the document language. The subtitle is present only when it differs from the main title and is not the raw key. |
| `PdfText.VerificationCode` | src/utils/pdfGenerator.js:233 | The code is the text after the last `/` of the QR text: a slash-free suffix that is either the whole text or preceded by a `/`. |
| `PdfText.VerificationCodeOfUrl` | src/utils/pdfGenerator.js:233 | For `<url>/<code>` with a slash-free code, the code is recovered. |
| `PdfText.LeadingSpaces` | src/utils/pdfGenerator.js:288 | The length of the maximal whitespace prefix. |
| `PdfText.CollapseSpaces` | src/utils/pdfGenerator.js:288 | The result has no whitespace and is no longer than the input; it adds no `/`, and leaves a string without whitespace as it was. |
| `PdfText.CollapseSpacesRun` | src/utils/pdfGenerator.js:288 | A whitespace run in front of a word becomes exactly one `_`. |
| `PdfText.CollapseSpacesConcat` | src/utils/pdfGenerator.js:288 | The replacement works piece by piece, in order, wherever the cut does not split a whitespace run. |
| `PdfText.ReplaceSlashes` | src/utils/pdfGenerator.js:288 | The result has no `/`, is no longer than the input, and leaves a slash-free string as it was. |
| `PdfText.ReplaceSlashesRun` | src/utils/pdfGenerator.js:288 | A `/` with any whitespace runs on both sides, in front of a word, becomes exactly one `_`. |
| `PdfText.ReplaceSlashesConcat` | src/utils/pdfGenerator.js:288 | The replacement works piece by piece, in order, after any character that is neither whitespace nor `/`: no match straddles such a cut. |
| `PdfText.FileName` | src/utils/pdfGenerator.js:288 | The name has no whitespace and ends in `.pdf`. It holds a `/` only when the patient name does. |
| `PdfText.FileNameOfWords` | src/utils/pdfGenerator.js:288 | A title `A / B` (any whitespace around the `/`) and a patient `First Last` (any whitespace run between) give exactly `A_B_First_Last.pdf`. |
| `PdfText.BilingualTitleFileName` | src/utils/pdfGenerator.js:288 | A bilingual title `A / B` becomes `A_B` in the file name. |
| `PdfText.SlashedTitle` | src/utils/pdfGenerator.js:288 | A title `A / B`, with any whitespace runs around the `/`, becomes `A_B`. |
| `PdfText.ReplaceSlashesAround` | src/utils/pdfGenerator.js:288 | ` / ` between two slash-free words becomes one underscore. |
| `PdfText.ColumnWidths` | src/utils/pdfGenerator.js:144-145 | Each column is its percentage of the content width, and together they fill the width exactly. |
| `PdfText.LineMax` | src/utils/pdfGenerator.js:175-179 | At least one and at least every cell's line count; it is one of them, or one. |
| `PdfText.MaxLines` | src/utils/pdfGenerator.js:175-179 | The loop computes the line maximum. |
| `PdfText.RowHeight` | src/utils/pdfGenerator.js:180 | At least 8 mm and at least `3.5·lines + 4` mm: exactly 8 mm for zero or one line, and exactly `3.5·lines + 4` mm from two lines on. |
| `PdfLayout.Key` | src/utils/pdfGenerator.js:104-234 | Every drawn label's key starts with `pdf`, so every label is bilingual-eligible. |
| `PdfLayout.SummaryAppend` | src/utils/pdfGenerator.js:161-212 | The tally of a log extended by one drawing is that drawing added to the log's tally. |
| `PdfLayout.RowSpecs` | src/utils/pdfGenerator.js:161-212 | One row per vaccine, indexed in input order. Each row is exactly the row height of its tallest cell, so at least 8 mm and tall enough for every one of its cells. |
| `PdfLayout.WellFormedAt` | src/utils/pdfGenerator.js:161-212 | Every drawing in a well-formed log fits what was drawn before it. |
| `PdfLayout.ShapeMeans` | src/utils/pdfGenerator.js:182-202 | Every added page is followed by its header. Every row ends above the break line or opens a redrawn continuation. A new page is never the last drawing. |
| `PdfLayout.DrawKeepsShape` | src/utils/pdfGenerator.js:161-212 | A drawing that fits keeps the log well shaped. |
| `PdfLayout.PageKeepsShape` | src/utils/pdfGenerator.js:62-84 | A new page followed by its header keeps the log well shaped. |
| `PdfLayout.Sheet.constructor` | src/utils/pdfGenerator.js:45-84 | One page, its header drawn, the cursor below the band. |
| `PdfLayout.Sheet.Draw` | src/utils/pdfGenerator.js:120-128 | A drawing that starts no page is logged and tallied. |
| `PdfLayout.Sheet.StartPage` | src/utils/pdfGenerator.js:62-84 | One more page, with its number added to the pages list, its header drawn and the cursor reset. |
| `PdfLayout.Sheet.AddSectionTitle` | src/utils/pdfGenerator.js:86-102 | The title is drawn at the cursor, which advances 14 mm. |
| `PdfLayout.Sheet.PlaceInfo` | src/utils/pdfGenerator.js:114-130 | Past the 20 mm threshold it opens a continued page first. In both cases the item is drawn and tallied once. |
| `PdfLayout.Sheet.PatientBlock` | src/utils/pdfGenerator.js:106-131 | The four holder items are drawn in order. The cursor ends 5 mm below where the item rule (a new page past the break, then 4.5 mm per line and 4 mm) leaves it. |
| `PdfLayout.Sheet.PlaceRow` | src/utils/pdfGenerator.js:182-211 | A row that would cross the break line goes on a new page after the header, continued title and column header. The row is tallied once with its height. |
| `PdfLayout.Sheet.PlaceRows` | src/utils/pdfGenerator.js:161-212 | Exactly the specified rows are tallied, in order. The cursor ends where the row rule (a continued page when a row would cross the break) leaves it. |
| `PdfLayout.Sheet.VaccineSection` | src/utils/pdfGenerator.js:133-218 | The title, then exactly the specified rows in order, or the placeholder when there are no vaccines. The cursor then stands 8 mm below the title, or where the rows leave it after the column header. |
| `PdfLayout.Sheet.IssueItems` | src/utils/pdfGenerator.js:240-251 | The three issuance items in order, the cursor advancing 4 mm per line and 4 mm more for each. |
| `PdfLayout.Sheet.Issuance` | src/utils/pdfGenerator.js:220-262 | The three issuance items in order, plus the QR image only when it could be made. A page is added exactly when the cursor is past the issuance break, and the cursor ends below the title by the items' total advance. |
| `PdfLayout.Sheet.Content` | src/utils/pdfGenerator.js:104-262 | From an empty tally: the specified rows, the holder then issuance items, and the placeholder and QR marks, with no footer yet. |
| `PdfLayout.Sheet.AddFooters` | src/utils/pdfGenerator.js:275-286 | Every page receives exactly one footer, the last one either inside the loop or after it. |
| `PdfLayout.Render` | src/utils/pdfGenerator.js:84-285 | The drawn document: the header on page 1, pages 2, 3, ... added in order, one row per vaccine in order, the patient and issuance items, one footer per page, and the placeholder or QR marks. Every added page is followed by its header, and every row ends above the break line or opens a continued page. |
| `PdfLayout.Generate` | src/utils/pdfGenerator.js:4-291 | The whole document: its pages, rows in order, items, one footer per page, placeholder or QR marks, and the file name. The layout invariants hold throughout. |
| `ManageDependentsPage.Resolve` | src/pages/ManageDependentsPage.jsx:24 | The found record has the id, is a converted dependent and links back. `None` means no record does. |
| `ManageDependentsPage.ResolveIds` | src/pages/ManageDependentsPage.jsx:23-25 | No longer than the id list. Each element is a stored, linked dependent whose id is in the list. |
| `ManageDependentsPage.ResolveIdsInOrder` | src/pages/ManageDependentsPage.jsx:23-25 | The result maps the resolving ids, in order, to their first linked record. Its length is the number of resolving ids. |
| `ManageDependentsPage.Recompute` | src/pages/ManageDependentsPage.jsx:41-50 | Only linked stored dependents, and no more of them than the main account's ids. |
| `ManageDependentsPage.RecomputeCases` | src/pages/ManageDependentsPage.jsx:41-50 | The list is empty without a main account or `dependents` field, and is the in-order resolution otherwise. |
| `ManageDependentsPage.DependentsDetails` | src/pages/ManageDependentsPage.jsx:17-33 | Empty without a user or user id; otherwise only linked stored dependents. |
| `ManageDependentsPage.HandleDeleteDependent` | src/pages/ManageDependentsPage.jsx:35-56 | Without confirmation, or when the deletion fails, nothing changes. Otherwise the store deletes and unlinks, and the session follows the store's rule: cleared if it was the dependent, refreshed if it is the main account. The shown list is recomputed from the new table, without the deleted id. |
| `ManageDependentsPage.DeletedStaysGone` | src/pages/ManageDependentsPage.jsx:37-47 | After delete and unlink, no record carries the deleted id. |
| `DashboardPage.UserVaccines` | src/pages/DashboardPage.jsx:22 | The user's vaccines, or empty when missing. |
| `DashboardPage.DependentsCount` | src/pages/DashboardPage.jsx:24-33 | 0 without a main account or `dependents` field. Otherwise the number of ids that resolve to a linked converted dependent. |
| `DashboardPage.CertificateRequest` | src/pages/DashboardPage.jsx:42-52 | A missing target throws, whether it is a dependent (reading its vaccines) or not (reading its first name for the refusal message). Otherwise the request is refused iff the chosen list (the dependent's, or the user's defaulted one) is empty, and is issued with that list when it is not. |
| `DashboardPage.SelfCertificateMatchesButton` | src/pages/DashboardPage.jsx:195 | The self-certificate is issued iff the download button is enabled. |
| `DependentDashboardPage.AgeInYears` | src/pages/DependentDashboardPage.jsx:12-22 | `null` iff there is no birth date. Otherwise it is the age whose anniversary has been reached and whose next anniversary has not. |
| `DependentDashboardPage.AnniversariesInOrder` | src/pages/DependentDashboardPage.jsx:16-20 | Reaching a later anniversary means having reached every earlier one. |
| `DependentDashboardPage.SchemeButtonUnderEighteen` | src/pages/DependentDashboardPage.jsx:42-47 | The scheme button shows iff there is a birth date and the 18th birthday has not been reached. |
| `DependentDashboardPage.FindDependent` | src/pages/DependentDashboardPage.jsx:34-51 | Idle without a user, user id or dependent id. Otherwise it finds the first stored record with the id that is a converted dependent linking back, or reports that none exists. |
| `DependentDashboardPage.ViewOf` | src/pages/DependentDashboardPage.jsx:39-47 | The vaccines default to empty, and the button follows the 18th-birthday rule. |
| `DependentDashboardPage.DependentCertificate` | src/pages/DependentDashboardPage.jsx:55-63 | Refused iff there is no dependent or no vaccine; otherwise it is issued with its vaccines. |
| `VaccinationSchemePage.ScheduleKey` | src/pages/VaccinationSchemePage.jsx:30 | The code of a country with that name, or `undefined` when none has it. |
| `VaccinationSchemePage.ScheduleFor` | src/pages/VaccinationSchemePage.jsx:31 | The code's schedule, else `DEFAULT`, else nothing. |
| `VaccinationSchemePage.NameMatches` | src/pages/VaccinationSchemePage.jsx:35 | True iff some keyword occurs in the name, ignoring case. |
| `VaccinationSchemePage.HasVaccine` | src/pages/VaccinationSchemePage.jsx:34-36 | True iff some recorded vaccine's name contains some keyword, ignoring case. |
| `VaccinationSchemePage.ProcessScheme` | src/pages/VaccinationSchemePage.jsx:33-38 | Same length and order as the schedule, every scheduled field kept. An entry is completed iff some vaccine name contains some keyword, ignoring case. |
| `VaccinationSchemePage.NoVaccinesAllPending` | src/pages/VaccinationSchemePage.jsx:34 | Without vaccines every entry is pending. |
| `VaccinationSchemePage.KeywordEdgeCases` | src/pages/VaccinationSchemePage.jsx:35 | No keywords never complete. An empty keyword completes as soon as there is any vaccine. |
| `VaccinationSchemePage.LoadScheme` | src/pages/VaccinationSchemePage.jsx:23-49 | Without a user it goes to login; it waits without ids; a missing dependent is reported. A found dependent whose country has no schedule and no `DEFAULT` makes it throw; otherwise the outcome is the dependent's processed scheme against that schedule. |
| `MedicalCenterPage.Patients` | src/pages/MedicalCenterPage.jsx:55-60 | Exactly as many records as have role `user`, each one of them with vaccines defaulted. |
| `MedicalCenterPage.PatientsAreLoadedUsers` | src/pages/MedicalCenterPage.jsx:57-60 | The patient list is the admin page's loaded table filtered to role `user`, and so is an order-preserving subsequence of it. |
| `MedicalCenterPage.PatientSearch` | src/pages/MedicalCenterPage.jsx:126-134 | The result is an order-preserving subsequence holding exactly the matching patients, each as many times as the list holds it, or a throw on a missing email or document id. |
| `MedicalCenterPage.SearchIgnoresRole` | src/pages/MedicalCenterPage.jsx:127-132 | The role never affects a match. |
| `MedicalCenterPage.EmptyTermKeepsAllPatients` | src/pages/MedicalCenterPage.jsx:127-132 | An empty term keeps every patient. |
| `MedicalCenterPage.PatientData` | src/pages/MedicalCenterPage.jsx:73 | The registration always carries role `user` and the typed email, document and country, so it opens a session. |
| `MedicalCenterPage.HandleCreatePatient` | src/pages/MedicalCenterPage.jsx:68-82 | It is rejected iff a required field is empty. A valid form is registered iff neither email nor document is taken, a failure naming the duplicate with nothing changed. On success the patient record is appended with role `user`, and the session becomes the new patient (see Findings). |
| `MedicalCenterPage.CreatedPatientTakesOverSession` | src/contexts/AuthContext.jsx:74-77 | After a patient creation, the session user has role `user` and is redirected away from `/medical-center`. |
| `MedicalCenterPage.HandleCreatePatientKeepingSession` | src/pages/MedicalCenterPage.jsx:68-82 | The same guard, the same duplicate rule and the same appended record, returned stripped, with the centre's session kept in every case. |
| `MedicalCenterPage.NewVaccineDraft` | src/pages/MedicalCenterPage.jsx:136-147 | The place defaults to the centre's name, or to empty; every other field is empty. |
| `MedicalCenterPage.HandleSaveVaccine` | src/pages/MedicalCenterPage.jsx:84-100 | The vaccine is added under acting role `medical_center`, so the session never changes. A single-vaccine certificate follows iff the patient exists in both the table and the shown list. |
| `MedicalCenterPage.ProfessionalPatchOf` | src/pages/MedicalCenterPage.jsx:155-156 | Merging the form into any professional keeps its id and takes all three typed fields. |
| `MedicalCenterPage.HandleSaveProfessional` | src/pages/MedicalCenterPage.jsx:149-172 | It is rejected iff a field is empty. When editing it updates the edited professional; otherwise it adds a new one. A saved change refreshes the session when the centre is the session user. A failure changes nothing. |
| `RegisterPage.Validate` | src/pages/RegisterPage.jsx:48-76 | A mismatch is reported first, then a password shorter than 6, then an empty country. No error is reported iff all three checks pass. |
| `RegisterPage.RegistrationData` | src/pages/RegisterPage.jsx:80 | Every field but the confirmation is passed on, with no role, so it opens a session. |
| `RegisterPage.HandleSubmit` | src/pages/RegisterPage.jsx:44-96 | The store is called iff validation passes, and then registers iff neither email nor document is taken; a failure names the duplicate, email first. A registered user is the new, stripped record and the session, with a password of at least 6 characters. Nothing changes otherwise. |
| `RegisterPage.AdminAddressSignsUpAsAdmin` | src/pages/RegisterPage.jsx:80-81 | Signing up with `admin@vacun.org` yields an administrator account. |
| `AddDependentPage.PrefillFor` | src/pages/AddDependentPage.jsx:35-59 | A blank form is shown without an edit id or a user. Otherwise the form is filled from the first record with the id that links back to the user, or it reports that none does. |
| `AddDependentPage.DependentData` | src/pages/AddDependentPage.jsx:92-94 | The six typed fields, with no id, email, password, role or link. |
| `AddDependentPage.HandleSubmit` | src/pages/AddDependentPage.jsx:74-98 | Nothing reaches the store unless all six fields are filled. Edit mode updates the dependent that links back, and add mode creates and links one; both refresh the session when the main account is the session user. The shown password is the temporary one. |
| `ProtectedRoute.HomeOf` | src/components/ProtectedRoute.jsx:21-23 | `/admin`, `/medical-center`, or `/dashboard` for every other role. |
| `ProtectedRoute.Guard` | src/components/ProtectedRoute.jsx:5-27 | While loading it shows the spinner, and without a user it goes to login. It renders iff the role is admitted; otherwise it redirects to the role's home. |
| `ProtectedRoute.RedirectLandsOnAdmittingPage` | src/App.jsx:137-147 | For the three created roles, a redirect lands on a page that admits the user. |
| `ProtectedRoute.OtherRoleRedirectsToDashboardAgain` | src/App.jsx:57-59 | Any other role is sent to `/dashboard`, which sends it there again. |
| `LanguageSelector.ByCode` | src/components/LanguageSelector.jsx:26 | A listed language with that code, or none. |
| `LanguageSelector.CurrentLanguage` | src/components/LanguageSelector.jsx:12-26 | Always one of the four. The exact code wins, then the part before `-`, then Spanish. |
| `LanguageSelector.TwoLetterCodes` | src/components/LanguageSelector.jsx:12-17 | Every listed code has two letters. |
| `LanguageSelector.ByOwnCode` | src/components/LanguageSelector.jsx:12-17 | Each listed language is found by its own code. |
| `LanguageSelector.RegionalVariant` | src/components/LanguageSelector.jsx:26 | Every regional tag `<code>-<region>` of a listed language shows that language. |
| `LanguageSelector.UnknownCode` | src/components/LanguageSelector.jsx:26 | A tag that starts with none of `en`, `fr`, `pt` shows Spanish. |

## Left out

- Browser storage and JSON are not modelled. The table, the session and the
  certificate log are fields, read and written whole.
- `Date.now()` and `new Date()` are not modelled. Ids and timestamps are
  parameters, and nothing is claimed about their uniqueness. Each clock read
  is its own parameter. For example, the certificate entry's two ISO dates
  are `vaccinationIso` and `issueIso`.
- Date parsing is the `parse` parameter of `DependentDashboardPage.BirthOf`.
  The source parses an ISO date as UTC but reads it back with local-time
  getters; that time-zone shift is not modelled.
- jsPDF drawing, text measurement and `pdf.save` are not modelled. Line counts
  are inputs.
- `QRCode.toDataURL` is not modelled. Its success is the `qrMade` input; its
  failure is only logged.
- Millimetre coordinates are integers in tenths of a millimetre. The row height
  `3.5·lines + 4` is exact in these units; the float arithmetic is not modelled.
- Single-vaccine certificate generation on the medical-centre page is not
  modelled beyond the decision to generate it.
- `PdfText.PdfLabel`: interpolation options and the fallback translator that
  `localT` installs when no `t` is given are not modelled. Translation is the
  uninterpreted `tr` parameter.
- `PdfLayout.Sheet.AddSectionTitle`: section titles' `toUpperCase` is not
  modelled, nor the subtitle variant, which the generator never uses.
- `Text.Lower` folds ASCII only; `toLowerCase` is Unicode-aware. `\s` is the
  ASCII whitespace class.
- The i18n `t` function is a parameter (`tr`) where a decision depends on it
  (the role label in `UserManagementCard.CardSearch`). Otherwise labels are
  translation keys.
- The React layer is not modelled: state hooks, effects, toasts, navigation
  beyond the outcome a handler chooses, and `window.confirm` (a `confirmed`
  input).
- A patch key that is present with the value `undefined` behaves like an
  absent key in the model.
- Passwords are plain text in the source. Only exact equality is modelled, and
  nothing is claimed about security.
- The country list and the vaccination schedules are data files; they are not
  part of this model and enter as parameters.
- The static pages, the route table beyond the three landing pages' role
  lists, and the header are not modelled.
- The forwarding pages are not modelled: `AdminPage/index.jsx`,
  `AddVaccinePage.jsx`, `AddVaccineDependentPage.jsx`, `UserProfilePage.jsx`,
  `LoginPage.jsx`, `EditUserModal.jsx` and `VaccineModalAdmin.jsx`.
- `CertificateDependentPage.jsx` is not modelled. Its lookup compares dependent
  ids (strings) with `.id` and never matches.
- `VaccinationSchemePage.ScheduleKey` states which code is used only when some
  country has the name, not that it is the first such country's.
- `RegisterPage.Validate` counts the password's length in characters, while
  `password.length` counts UTF-16 code units; the two differ only for
  characters outside the Basic Multilingual Plane.
- `Records.Vaccine` keeps `vaccineLot` and `vaccineProofUrl` as plain strings:
  every form that creates or edits a vaccine sets them, to `''` when blank, so
  the empty string stands for a missing value.

## Findings

| source | as written | input that shows it | evidently intended | confidence | as-written member | corrected member |
|---|---|---|---|---|---|---|
| src/pages/MedicalCenterPage.jsx:73 | Patient creation calls the context's `register` with role `user`. `register` then replaces the session whenever the supplied role is neither `medical_center` nor `admin` (src/contexts/AuthContext.jsx:74-77). | A logged-in medical centre creates a patient with any complete form: the session becomes the new patient, and `/medical-center` now redirects to `/dashboard`. | Staff creating a patient stay logged in as themselves; only the table gains the patient. | not executed | `MedicalCenterPage.HandleCreatePatient` (with `MedicalCenterPage.CreatedPatientTakesOverSession`) | `MedicalCenterPage.HandleCreatePatientKeepingSession` |
| src/pages/AdminPage.jsx:203 | Account creation calls the context's `register` with the form's role. `register` replaces the session whenever the supplied role is neither `medical_center` nor `admin` (src/contexts/AuthContext.jsx:74-77). | A logged-in administrator creates an account with role `user`: the session becomes the new account, and `/admin` now redirects to `/dashboard`. | The administrator stays logged in; only the table gains the account. | not executed | `AdminPage.HandleCreateUser` (with `AdminPage.CreatedUserTakesOverSession`) | `AdminPage.HandleCreateUserKeepingSession` |
