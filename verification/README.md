# Helpify complaint core, in Dafny

Helpify is a hostel complaint system. Students register, log in and file
complaints: a category, a description and a photo. The hostel admin sees
every complaint and its counts, and assigns each complaint to a staff member.
Staff move their complaints to In Progress or Resolved, with remarks. The
admin also maintains the staff directory. Every route except registration and
login sits behind a JSON Web Token in the `x-auth-token` header. The admin
routes and staff routes also check the token's role.

The model is a pure state machine over one `Store`:

- complaints by id;
- the Staff and Student collections, in insertion order, so `findOne` is
  "first match".

Each route is a function from a store and a request (headers plus body
fields) to a `Step`: the HTTP response, either sent with a status code and a
body or rejected with a `Failure` that maps to its status code, together with
the store the route leaves behind. The listing routes are methods, because
they pick keys out of a map one at a time. Things the server takes from
outside are fields of `Http.Env`:

- the token library's verdict on a token;
- the email validator;
- the clock, in milliseconds;
- the id the database hands to a new document;
- the hashing salt.

The admin credentials are `AuthController.Config`. Two React pages are
modelled as well:

- the admin's assign dialog and table patch (`AssignPanel`);
- the student's status timeline (`Timeline`).

Modules, in dependency order:

- `Wrappers`: `Option`, `Result`.
- `Seqs`: sequence helpers (first match, filter, index, removal).
- `Http`: headers, token claims, `Env`, failures and their status codes, responses.
- `ComplaintModel`: the complaint schema, enum names, JavaScript `trim`, document creation with defaults.
- `Directory`: staff and student records, the password save hook, lookups, unique indexes.
- `Db`: the store, its invariant, and the query filters and sort keys.
- `Guards`: token check, admin check, staff check.
- `Listing`: `find(filter).sort({key: -1})` as a verified selection-and-insertion method.
- `AuthController`: login resolution and token payload, registration.
- `ComplaintRoutes`, `AdminComplaintRoutes`, `StaffRoutes`, `AdminStaffRoutes`: the route handlers.
- `AssignPanel`, `Timeline`: the two pages.
- `Lifecycle`: properties that span several routes.

## Model

| member | source | states |
|---|---|---|
| ComplaintModel.ParseCategory | src/models/complaint.model.js:9-13 | a category string is accepted exactly when it names one of the four enum values, and then it names that value |
| ComplaintModel.CategoryRoundTrip | src/models/complaint.model.js:9-13 | every category survives being written as its enum string and read back |
| ComplaintModel.ParseStatus | src/models/complaint.model.js:31-35 | a status string is accepted exactly when it is one of the three enum strings, spaces included ("In Progress") |
| ComplaintModel.StatusRoundTrip | src/models/complaint.model.js:31-35 | every status survives being written and read back |
| ComplaintModel.TrimStart | src/models/complaint.model.js:14-18 | leading trim drops exactly a blank prefix and leaves a result that does not start with white space |
| ComplaintModel.TrimEnd | src/models/complaint.model.js:14-18 | trailing trim drops exactly a blank suffix and leaves a result that does not end with white space |
| ComplaintModel.Trim | src/models/complaint.model.js:14-18 | the stored description is the input with a blank prefix and a blank suffix removed, and with no white space at either end |
| ComplaintModel.TrimEmptyIffBlank | src/models/complaint.model.js:14-18 | trimming yields the empty string exactly when the input is all white space, so `required` then fails |
| ComplaintModel.TrimIdempotent | src/models/complaint.model.js:14-18 | trimming a trimmed description changes nothing |
| ComplaintModel.Create | src/models/complaint.model.js:3-45 | a complaint document is created exactly when the student id, category, trimmed description, image data and content type are all present and valid; the new document has status Submitted, no assignee, empty remarks and both timestamps set to the current time |
| Directory.HashIfModified | src/models/staff.model.js:13-19 | a modified password field is replaced by a digest that matches exactly the old plaintext and that the stored value itself does not match; an unmodified one is kept |
| Directory.ViewForgetsPassword | src/routes/admin.staff.routes.js:50 | a staff record's listed view does not depend on its password field |
| Directory.StaffInsertUnique | src/models/staff.model.js:4-11 | inserting a record that clashes with no unique index keeps `_id`, `staffId` and `email` unique |
| Directory.StudentInsertUnique | src/models/student.model.js:4-10 | inserting a record that clashes with no unique index keeps `_id`, `rollNumber` and `email` unique |
| Directory.StaffEmailLookupUnique | src/controllers/auth.controller.js:40 | under unique emails, the email lookup finds the one record that holds the email |
| Guards.Authenticate | src/middleware/auth.middleware.js:3-20 | a missing or empty token is 401 "no token"; a present token the library rejects or that has expired is always 401 "not valid", never "no token"; otherwise the request proceeds with the payload's user, which may be absent |
| Guards.Expired | src/middleware/auth.middleware.js:14 | a token carrying `exp` (seconds) is expired from millisecond `exp` × 1000 of the clock on; one without `exp` never expires |
| Http.StatusOf | src/routes/staff.routes.js:100-113 | the refusals fall into the codes the routes send: 400 for validators, credentials and duplicate emails; 401 for token failures and a non-owner; 403 for the role guards; 404 for a missing document; 500 for the upload limit and caught exceptions |
| Guards.AuthenticateReadsOnlyTokenHeader | src/middleware/auth.middleware.js:5 | two requests with the same `x-auth-token` header are authenticated alike |
| Guards.RequireAdmin | src/middleware/admin.middleware.js:1-8 | the caller passes unchanged exactly when there is a user whose role is "admin"; otherwise 403 |
| Guards.RequireStaff | src/routes/staff.routes.js:9-15 | the caller passes unchanged exactly when there is a user whose role is "staff"; otherwise 403 |
| Guards.AdminGate | src/routes/admin.complaint.routes.js:11 | `[auth, admin]`: the token guard's failure if it fails, else the admin guard's verdict |
| Guards.StaffGate | src/routes/staff.routes.js:21 | `[auth, isStaff]`: the token guard's failure if it fails, else the staff guard's verdict |
| Guards.GatesExclusive | src/middleware/admin.middleware.js:3 | no caller passes both role gates; the other gate answers 403 |
| Listing.SortedSelection | src/routes/admin.complaint.routes.js:33-36 | the query answer lists exactly the matching ids, each once, with sort keys never increasing |
| Listing.ListingCountsOnce | src/routes/staff.routes.js:24-29 | every matching document appears in a listing exactly once |
| AuthController.Resolve | src/controllers/auth.controller.js:27-54 | only the admin email can name the admin, and then the admin password alone decides; otherwise, when a Staff record has the email, the first such record is named exactly when its digest matches, and only as staff; when none has it, the first Student record with the email is named exactly when its digest matches; with no record at all the login fails |
| AuthController.Payload | src/controllers/auth.controller.js:62-68 | the token's user has role admin, staff or student according to whom the login named, with the fixed admin id and name or the record's id and name |
| AuthController.Login | src/controllers/auth.controller.js:23-78 | a login succeeds exactly when the credentials resolve; the token payload carries that principal, is issued at the current second and expires 3600 seconds later; every failure the model covers is the same 400 |
| AuthController.AdminEmailShadowsDirectories | src/controllers/auth.controller.js:32-37 | a login with the admin email does not depend on either directory and succeeds exactly with the admin password |
| AuthController.StaffEmailShadowsStudents | src/controllers/auth.controller.js:40-45 | when a Staff record holds the email, the Student collection plays no part, even when the password is wrong |
| AuthController.StudentLookupLast | src/controllers/auth.controller.js:46-52 | a student login's email belongs neither to the admin nor to any staff member |
| AuthController.Register | src/controllers/auth.controller.js:7-20 | an email held by a student is 400; otherwise every refusal is 500, and the student is stored, with a digest matching exactly the given password, exactly when every required field is given and no unique index clashes; only the Student collection changes |
| AuthController.RegisterIgnoresStaff | src/controllers/auth.controller.js:10 | registration's outcome does not depend on the Staff collection |
| AuthController.RegisterThenLogin | src/controllers/auth.controller.js:7-54 | after a successful registration, logging in with the same email and password yields a student token for the new id, unless the admin or a staff member holds the email |
| ComplaintRoutes.Submit | src/routes/complaint.routes.js:10-52 | token first; an oversized upload is 500 before validation; an empty category or description is 400; a missing file is 400; a refusal writes nothing; an accepted complaint gets a fresh id, is owned by the caller, holds the enum category, the trimmed description and the file, and takes the schema defaults |
| ComplaintRoutes.SubmitAcceptsExactly | src/routes/complaint.routes.js:10-52 | the complaint is stored exactly when the caller has an id, the category is in the enum, the description is not blank and the file has data and a type; once the early checks pass, every refusal is the 500 of a failed save |
| ComplaintRoutes.BlankDescriptionFailsOnSave | src/routes/complaint.routes.js:23-49 | a description of white space alone passes the route's check but fails on save with 500, and nothing is stored |
| ComplaintRoutes.UnknownCategoryFailsOnSave | src/routes/complaint.routes.js:22-49 | a category outside the enum passes the route's check but fails on save with 500, and nothing is stored |
| ComplaintRoutes.SubmitIgnoresRole | src/routes/complaint.routes.js:19 | submission does not depend on the token's role |
| ComplaintRoutes.MyComplaints | src/routes/complaint.routes.js:58-60 | the answer lists exactly the caller's complaints, each once, newest first; a token with no user is 500 |
| AdminComplaintRoutes.Stats | src/routes/admin.complaint.routes.js:11-21 | total counts every complaint; resolved counts the Resolved ones; pending counts every one that is not Resolved |
| AdminComplaintRoutes.SplitCounts | src/routes/admin.complaint.routes.js:14-15 | two complementary status tests split the complaints into parts that add up to all of them |
| AdminComplaintRoutes.StatsAddUp | src/routes/admin.complaint.routes.js:13-15 | total = resolved + pending |
| AdminComplaintRoutes.PendingCountsBothOpenStates | src/routes/admin.complaint.routes.js:15 | pending = Submitted + In Progress |
| AdminComplaintRoutes.ListAll | src/routes/admin.complaint.routes.js:31-36 | the admin list holds every complaint exactly once, newest first, and is as long as the collection |
| Listing.ListingCoversAll | src/routes/admin.complaint.routes.js:33 | a listing whose filter keeps every record is as long as the collection |
| AdminComplaintRoutes.Assign | src/routes/admin.complaint.routes.js:63-92 | an empty staff id is 400, an unknown complaint is 404; otherwise the complaint gets that assignee, In Progress and the current time, and everything else about it is kept |
| AdminComplaintRoutes.AssignIgnoresDirectories | src/routes/admin.complaint.routes.js:76 | assignment does not look the staff id up: the outcome does not depend on the directories |
| AdminComplaintRoutes.AssignReopensResolved | src/routes/admin.complaint.routes.js:76-77 | assigning a Resolved complaint sets it back to In Progress |
| AdminComplaintRoutes.AssignIdempotent | src/routes/admin.complaint.routes.js:76-80 | repeating an assignment at the same clock reading leaves the store as the first one left it |
| StaffRoutes.Active | src/routes/staff.routes.js:21-29 | the answer lists exactly the caller's assigned complaints that are not Resolved, each once, newest first |
| StaffRoutes.ResolvedList | src/routes/staff.routes.js:55-62 | the answer lists exactly the caller's Resolved complaints, each once, most recently updated first |
| StaffRoutes.StatusTarget | src/routes/staff.routes.js:95-96 | the body passes validation exactly when the status is "In Progress", or "Resolved" with non-empty remarks |
| StaffRoutes.UpdateStatus | src/routes/staff.routes.js:89-121 | validation first (400), then 404 for an unknown complaint, 500 for an unassigned one, 401 for someone else's; on success exactly the status, remarks and update time change |
| StaffRoutes.ResolvedCanBeReopened | src/routes/staff.routes.js:95-117 | the assignee can move a Resolved complaint back to In Progress |
| StaffRoutes.ResolveNeedsRemarks | src/routes/staff.routes.js:96-103 | resolving without remarks is 400, before the complaint is even looked up |
| AdminStaffRoutes.CreateStaff | src/routes/admin.staff.routes.js:11-43 | failed validators are 400; an email already held by a staff member is 400; past those, every refusal is 500, and the record is stored exactly when no unique index clashes; it is appended with a digest matching exactly the password, and returned with 201 |
| AdminStaffRoutes.StaffFormValid | src/routes/admin.staff.routes.js:15-19 | a form the validators accept meets every `required` of the Staff schema except the email's, which rests on the email checker |
| AdminStaffRoutes.BlankStaffFieldsPass | src/routes/admin.staff.routes.js:15-18 | the emptiness checks do not trim: a staff id, name and role of one space pass |
| AdminStaffRoutes.ListStaff | src/routes/admin.staff.routes.js:48-56 | the list holds every staff record, in directory order, without its password |
| AdminStaffRoutes.Patch | src/routes/admin.staff.routes.js:63-72 | each field present in the body replaces the stored one; absent fields and the password are kept |
| AdminStaffRoutes.UpdateStaff | src/routes/admin.staff.routes.js:62-81 | an unknown id is 404; for a known id the update succeeds exactly when the patched record clashes with no other record's staff id or email, and otherwise fails with 500; on success only the addressed record changes, by the patch, and its password-free view is returned |
| AdminStaffRoutes.UpdateAcceptsEmptyName | src/routes/admin.staff.routes.js:62-76 | no validator runs on update: an empty name is stored |
| AdminStaffRoutes.DeleteStaff | src/routes/admin.staff.routes.js:87-99 | an unknown id is 404; otherwise that record is removed and complaints and students are untouched |
| AdminStaffRoutes.DeleteRemovesExactlyOne | src/routes/admin.staff.routes.js:89-92 | after a delete, no record has the id, and every other record remains |
| AdminStaffRoutes.StaffRoutesKeepUnique | src/models/staff.model.js:6-8 | create, update and delete each keep the Staff unique indexes intact |
| AssignPanel.SuggestedRole | src/pages/ManageComplaints.js:39-44 | Electrical suggests Electrician, Plumbing suggests Plumber, Cleanliness suggests Cleaner; Other suggests none |
| AssignPanel.SuggestionInjective | src/pages/ManageComplaints.js:39-43 | different categories never suggest the same trade |
| AssignPanel.Offered | src/pages/ManageComplaints.js:45-47 | the dialog offers exactly the staff of the suggested trade, or everyone when there is no suggestion |
| Seqs.Filter | src/pages/ManageComplaints.js:46 | `Array.filter` keeps only elements that pass, and every element that passes is kept |
| Seqs.FilterCounts | src/pages/ManageComplaints.js:46 | filtering drops only elements that fail: each element that passes is kept as often as it occurs |
| Seqs.FilterConcat | src/pages/ManageComplaints.js:46 | filtering a concatenation is concatenating the filtered parts, so what is kept stays in its original order |
| AssignPanel.OfferedKeepsOrder | src/pages/ManageComplaints.js:46 | the offer keeps directory order |
| AssignPanel.OfferedAllOfTrade | src/pages/ManageComplaints.js:45-47 | when all staff have the suggested trade, all are offered |
| AssignPanel.Confirm | src/pages/ManageComplaints.js:48-53 | confirming sends a request exactly when a staff member is selected, for that complaint and that staff member |
| AssignPanel.ConfirmedCallHasStaffId | src/pages/ManageComplaints.js:49-52 | a request the dialog sends always passes the server's staff-id check |
| AssignPanel.AssignButtonOnlyWhenSubmitted | src/pages/ManageComplaints.js:170 | the assign button is shown exactly on Submitted rows |
| AssignPanel.AssignButtonShown | src/pages/ManageComplaints.js:170 | the button is shown exactly for the status string the server reads as Submitted |
| AssignPanel.ServerAssignsWhatTheTableHides | src/pages/ManageComplaints.js:170 | the server accepts assignment of a complaint whose row shows no assign button |
| AssignPanel.ApplyAssigned | src/pages/ManageComplaints.js:120-122 | after an assignment, the row with that id takes the returned status and assignee, and every other row is kept |
| AssignPanel.PatchMatchesServer | src/pages/ManageComplaints.js:114-122 | a table that showed the store still shows it once patched with the server's answer |
| Timeline.CurrentIndex | src/pages/TrackComplaints.js:50-51 | the current step is the status's place among the three steps, or -1 for any other string |
| Timeline.StepStateOf | src/pages/TrackComplaints.js:53-63 | a step is current exactly when it is the complaint's status, and done exactly when the status is a later step |
| Timeline.ConnectorDone | src/pages/TrackComplaints.js:79-80 | the connector after a step is drawn done exactly when the status is a later step |
| Timeline.CurrentIndexOfStatus | src/pages/TrackComplaints.js:50-51 | each status is placed at its lifecycle position |
| Timeline.UnknownStatusAllUpcoming | src/pages/TrackComplaints.js:53-57 | an unknown status draws every step as still to come |
| Timeline.OneCurrentStep | src/pages/TrackComplaints.js:53-63 | for a known status exactly one step is current, and the completed steps are exactly those before it |
| Timeline.ConnectorFollowsStep | src/pages/TrackComplaints.js:79-80 | a connector is drawn done exactly when the step before it is completed |
| Timeline.ResolutionDateOnlyWhenResolved | src/pages/TrackComplaints.js:76 | the resolution date shows on the last step, and only for a Resolved complaint |
| Timeline.ProgressIsMonotone | src/pages/TrackComplaints.js:53-57 | moving forward in the lifecycle never un-completes a step |
| Timeline.ResolutionDate | src/pages/TrackComplaints.js:74-77 | a date shows exactly for a Resolved complaint; it is the update time when the card carries one |
| Timeline.ListedResolutionDateIsToday | src/routes/complaint.routes.js:63-74 | with the student listing as formatted, a resolved complaint is dated with the viewer's current day, not its resolution time |
| Timeline.TrackedResolutionDateIsUpdate | src/pages/TrackComplaints.js:129-133 | with the update time carried, a resolved complaint is dated with its last update, and nothing shows before resolution |
| Lifecycle.QueuesPartitionAssigned | src/routes/staff.routes.js:24-60 | each complaint assigned to a staff member is in exactly one of that member's two queues, and nothing else is in either |
| Lifecycle.ComplaintWriteKeepsValid | src/models/complaint.model.js:3-45 | storing a well-formed complaint keeps the store invariant |
| Lifecycle.SubmitKeepsValid | src/routes/complaint.routes.js:36-45 | submission keeps the store invariant |
| Lifecycle.AssignKeepsValid | src/routes/admin.complaint.routes.js:76-80 | assignment keeps the store invariant and the clock ahead of every stored timestamp |
| Lifecycle.UpdateStatusKeepsValid | src/routes/staff.routes.js:117-121 | a status update keeps the store invariant and the clock ahead |
| Lifecycle.RegisterKeepsValid | src/controllers/auth.controller.js:14-15 | registration keeps the store invariant |
| Lifecycle.StaffDirectoryKeepsValid | src/routes/admin.staff.routes.js:35-92 | creating, updating and deleting staff keep the store invariant |
| Lifecycle.ComplaintWritesEvolve | src/routes/admin.complaint.routes.js:76-78 | no route deletes a complaint or changes its owner, category, description, image or creation time |
| Lifecycle.DeleteStaffOrphansAssignments | src/routes/admin.staff.routes.js:92 | deleting a staff member leaves the complaints assigned to them pointing at the removed id |
| Lifecycle.UpdateUnassignedIsServerError | src/routes/staff.routes.js:112-146 | a status update on a complaint nobody has been assigned is 500 and writes nothing |
| Lifecycle.NewComplaintNeedsAssignment | src/routes/staff.routes.js:112-114 | no staff update succeeds on a complaint just submitted |
| Lifecycle.ElectricalComplaintScenario | src/routes/admin.complaint.routes.js:63-80 | an Electrical complaint counts as pending; it can be assigned to a plumber the dialog would not suggest; resolved by that plumber with remarks, it is in their resolved queue and not the active one |
| Lifecycle.ScenarioSubmit | src/routes/complaint.routes.js:36-46 | a well-formed submission into an empty store is accepted and is then the only complaint, Submitted |
| Lifecycle.StatsOfOneOpen | src/routes/admin.complaint.routes.js:13-15 | one open complaint counts as total 1, resolved 0, pending 1 |
| Lifecycle.ScenarioAssign | src/routes/admin.complaint.routes.js:76-77 | an admin's assignment with a non-empty staff id sets that assignee and In Progress |
| Lifecycle.AssignThenResolve | src/routes/admin.complaint.routes.js:63-80 | on any store holding the complaint, an admin's assignment followed by the assignee resolving it with remarks leaves it Resolved with those remarks and that assignee, in the resolved queue and out of the active one |
| Lifecycle.ScenarioResolve | src/routes/staff.routes.js:112-119 | the assignee resolving with remarks leaves the complaint Resolved with those remarks, in the resolved queue and out of the active one |
| Lifecycle.PlumberNotOffered | src/pages/ManageComplaints.js:40-46 | a plumber is not offered for an Electrical complaint |
| Lifecycle.TimelineDatesResolution | src/routes/staff.routes.js:117-119 | with the update time carried, the timeline dates a resolution with the time staff resolved it |
| Lifecycle.LoginTokenOpensItsRoutes | src/controllers/auth.controller.js:62-73 | a login's token, presented before expiry, passes the admin gate exactly for the admin and the staff gate exactly for staff |
| Lifecycle.LoginTokenExpires | src/controllers/auth.controller.js:73 | the same token is 401 once the hour is over |
| Lifecycle.NoTokenNoAccess | src/middleware/auth.middleware.js:8-10 | without a token the protected routes answer 401 and write nothing |
| Lifecycle.WrongRoleForbidden | src/middleware/admin.middleware.js:3-7 | a caller of the wrong role is refused admin routes and staff routes with 403 and nothing written |
| Lifecycle.CreateStaffIgnoresStudents | src/routes/admin.staff.routes.js:30-33 | staff creation does not depend on the Student collection, so a student's email can be reused for staff |

## Left out

- Express, multer and HTTP transport. Routes take already-parsed headers and body fields. An absent body field is modelled as the empty string, except in the staff update, where absent fields are `None`. With absent modelled as empty, `remarks || ''` is the identity.
- Multer errors other than the 10 MiB size limit (field names, part counts, malformed multipart). Only the size limit is modelled, and as the 500 the route's default error handling gives.
- Response shaping: base64 image encoding, `populate` joins of student and staff names, and field selection. Listing routes return complaint ids in order. The assign route returns the stored complaint rather than the populated one.
- ObjectId casting. Ids are strings. In the source, a caller whose token id is not an ObjectId, such as the admin's fixed "admin_id", makes the complaint save fail with 500. The model stores the complaint under that id.
- `findOne({ email: undefined })` matching by an absent email. An absent email is modelled as "", which no stored record holds.
- bcrypt and JWT internals. Hashing is a one-way `Digest` that matches exactly its plaintext: no collisions, no cost factor. Token signing and verification are the `Env.verify` parameter. The model keeps only the claims and their expiry rule.
- Mongoose version details. `findByIdAndRemove` is assumed to exist, as in Mongoose 7. `$set` with undefined fields is assumed to leave those fields unchanged. Uniqueness is checked as an atomic test before the write.
- Concurrency. Two requests racing on one document or index are not modelled; each route is one atomic step.
- Wall-clock time and the timezone of `toLocaleDateString`. The clock is `Env.now` in milliseconds, and dates are those timestamps.
- Database and hashing failures other than schema and index violations, which would be 500.
- app.js, the server bootstrap, CORS, and the pages other than the assign dialog, the complaint table and the status timeline.
- Login: a request without a password field, for an email that a Staff or Student record holds, makes `bcrypt.compare(undefined, hash)` throw, and the catch sends 500. The model reads an absent password as "", which matches no digest, so it answers 400 there.
- AssignPanel.ApplyAssigned: the page stores the populated staff object as `assignedStaff`. The model stores the staff id it carries.
- Listing.SortedSelection: records with equal sort keys come out in an order the model does not fix, as MongoDB gives no order for ties.

## Findings

| source | as written | input that shows it | evidently intended | confidence | as-written member | corrected member |
|---|---|---|---|---|---|---|
| src/routes/complaint.routes.js:63-74 with src/pages/TrackComplaints.js:76,132 | the student listing omits `updatedAt`, so the timeline falls back to `new Date()` and dates every resolution with the viewer's current day | a complaint resolved at time T and viewed by its student on a later day is shown as resolved on the viewing day, not on T | the listing carries `updatedAt`, and the timeline shows when the complaint was resolved | high; not executed | Timeline.ListedResolutionDateIsToday | Timeline.TrackedResolutionDateIsUpdate |
