# DECMS chain of custody, modelled in Dafny

DECMS is a digital-evidence case management system with two back ends.

The Node/Express API (`decms_node`) handles:
- cases, evidence items and their storage locations;
- transfers between custodians, including a public request / approve / reject workflow;
- analysis reports;
- the middleware that authenticates callers by a bearer token and authorizes them by role.

The Flask back end (`DECMS_BACKEND`) keeps a hash-linked chain of custody. Every evidence item has a genesis transfer whose hash covers the item's initial hash. Every later transfer hashes the previous link's hash together with its item, its two users, its timestamp and its notes. This model takes the stored timestamp to be exactly the hashed one (see "Left out"). A permission decorator and an audit helper guard and record these services.

This project models those parts. The MySQL tables of the Node API are the class `Store.Database`: one map per table, the access log, and one auto-increment counter per table. Handlers are methods that change it. A transaction's rollback restores the saved tables but does not rewind the counters, as InnoDB does not. A failing statement is a `Fault` parameter: `FailAt(k)` makes the k-th statement of the handler throw. The SQLAlchemy session of the Flask back end is the class `PySession.Session`, with a pending view (`work`) and a committed view (`durable`). SHA-256 and token verification are function parameters.

Modules:
- `Store` (store.dfy): tables, replies and the `Database` class.
- `Identity` (identity.dfy): the user-lookup chains.
- `Listing` (listing.dfy): selecting and ordering rows.
- `Transfers`, `Evidence`, `Cases`, `Reports`: the four Node controllers.
- `AuthMiddleware` (auth.dfy): the Node middleware.
- `TransferRoutes`, `EvidenceRoutes`, `CaseRoutes`, `ReportRoutes`: the four route tables.
- `PySession`, `PyMiddleware`, `Custody`: the Flask session, middleware and services.
- `Wrappers`, `Decimal`, `Text`: option values, decimal rendering, and JavaScript string operations.

## Model

Paths below are relative to the repository root. Node controllers are under `decms_node/controllers/`, Node routes under `decms_node/routes/`, and the Flask files under `DECMS_BACKEND/app/`.

| member | source | states |
|---|---|---|
| AuthMiddleware.Authenticate | decms_node/middleware/authMiddleware.js:4-15 | A caller is admitted only with a header starting `Bearer `, and only as the payload that the rest of the header verifies to. |
| AuthMiddleware.BearerToken | decms_node/middleware/authMiddleware.js:6-14 | A `Bearer` header gives exactly the payload its token verifies to. An unverifiable token is refused with 401 "Invalid token". |
| AuthMiddleware.OtherSchemeRefused | decms_node/middleware/authMiddleware.js:6 | Any other header is refused with 401 "Missing token", whatever its token. |
| AuthMiddleware.Authorize | decms_node/middleware/authMiddleware.js:17-25 | Passes if and only if there is a user and either the role list is empty or it holds the user's role. Without a user the refusal is 401, otherwise 403. |
| AuthMiddleware.SingleRoleIsList | decms_node/middleware/authMiddleware.js:19 | One role string behaves as the one-element list, and admits exactly that role. |
| AuthMiddleware.RunUploads | decms_node/routes/evidence.js:15 | Upload stages always pass, and record their fields in order. |
| AuthMiddleware.OpenChain | decms_node/routes/transfers.js:9 | A route without guards admits everyone, with no user. |
| AuthMiddleware.AuthenticatedChain | decms_node/routes/transfers.js:12 | `authenticate` alone admits exactly the callers whose token verifies. A refused request is 401 and nothing is uploaded. |
| AuthMiddleware.GuardedChain | decms_node/routes/transfers.js:7 | `authenticate, authorize(roles)` admits exactly the authenticated callers whose role is allowed. A refusal is 401 or 403 and comes before any file is written. |
| TransferRoutes.ChainEnforcesPolicy | decms_node/routes/transfers.js:7-17 | For every transfer route, a request reaches the handler if and only if the role policy admits the caller: Admin for immediate transfers and decisions, open for the public request and full listing, any user for the per-item listing. |
| EvidenceRoutes.ChainEnforcesPolicy | decms_node/routes/evidence.js:15-24 | Likewise for evidence: Investigator/Admin may create, Lab Staff may also update, Admin may delete, any user may read, and the public endpoints are open. |
| EvidenceRoutes.UploadOnlyAfterChecks | decms_node/routes/evidence.js:15-19 | Authenticated intake stores the file only after both checks pass. Public intake stores it for anyone. |
| CaseRoutes.ChainEnforcesPolicy | decms_node/routes/cases.js:7-13 | Case routes admit exactly the policy: Admin lists, Admin/Investigator create and update, those plus Lab Staff read one, and the public routes are open. |
| ReportRoutes.ChainEnforcesPolicy | decms_node/routes/reports.js:12-17 | Report routes admit exactly the policy: Lab Staff/Admin file, any user lists an item's reports, and the public routes are open. |
| ReportRoutes.UploadOnlyAfterChecks | decms_node/routes/reports.js:12 | The report file is stored only after both checks pass. A refusal is 401 without a valid token and 403 otherwise, and an authenticated Investigator is always refused with 403. |
| Store.Database.InsertTransfer | decms_node/controllers/transfersController.js:139-142 | An insert stores the row under the next auto-increment id, which no row had, and touches no other table. InsertEvidence, InsertStorage, InsertCase and InsertReport do the same for their tables. |
| Store.Database.AppendLog | decms_node/controllers/transfersController.js:143 | An access-log insert appends one entry and changes nothing else. |
| Store.Database.Restore | decms_node/controllers/transfersController.js:147 | A rollback brings back the tables saved when the transaction began. The counters keep their values. |
| Store.SetCustody | decms_node/controllers/transfersController.js:166 | The item update changes custodian and status of that item only. An unknown id changes no row. |
| Identity.FirstWhereSpec | decms_node/controllers/transfersController.js:95-96 | A `WHERE … LIMIT 1` lookup finds nothing if and only if no row matches, and otherwise finds the first matching row. |
| Identity.FirstMatchSpec | decms_node/controllers/transfersController.js:93-130 | A chain of lookups finds nothing if and only if no criterion matches any user. Otherwise it finds what the earliest criterion with a match finds. |
| Identity.FirstMatchSound | decms_node/controllers/transfersController.js:93-130 | Whatever the chain finds is the id of a user that matches one of its criteria. |
| Identity.ResolveUser | decms_node/controllers/transfersController.js:93-130 | `resolveUser` tries email, then badge, then the name lookups, stopping at the first hit. It finds nobody when no identifier is sent. |
| Identity.NameSplitOfJoined | decms_node/controllers/transfersController.js:116-119 | A name of two or more words, split on white space, gives its first word and the rest joined by single spaces. |
| Identity.NameSplit | decms_node/controllers/transfersController.js:115-119 | A name of two or more words splits into a non-empty first word without white space and the remaining words joined by single spaces. A blank or one-word name gives no split. |
| Identity.ResolveUserIsFirstMatch | decms_node/controllers/transfersController.js:93-130 | `resolveUser`'s early returns equal the criteria chain: email, badge, name column, first+last split, then first-or-last. |
| Identity.EmailWins | decms_node/controllers/transfersController.js:94-97 | A user found by email is the answer, whatever badge or name is also sent. |
| Identity.SpaceSplit | decms_node/controllers/reportController.js:94-96 | Splitting on the first space gives the text before and after it, or the whole name and an empty last name when there is no space. |
| Identity.LowestId | decms_node/controllers/reportController.js:124-127 | The lowest id is absent if and only if there are no users. Otherwise it belongs to a user and is at most every user's id. |
| Identity.ResolvePerson | decms_node/controllers/evidenceController.js:127-156 | The collector (and likewise the case assignee) is email, then the name column, then the first/last split, as the handler reassigns its variable. |
| Listing.SelectIds | decms_node/controllers/caseController.js:35 | A filtered select returns each matching key once, in key order, and no other key. |
| Listing.SortByCorrect | decms_node/controllers/transfersController.js:48 | Ordering by a key gives a list sorted by that key, with the same members. |
| Listing.SelectOrdered | decms_node/controllers/transfersController.js:48 | A select with ORDER BY returns exactly the matching rows, each once, sorted by the key. |
| Transfers.TagRoundTrip | decms_node/controllers/transfersController.js:143 | The access-log action `KIND:from->to` parses back to its kind and both user ids. |
| Transfers.Handover | decms_node/controllers/transfersController.js:29-34 | The immediate transfer adds one `Approved` row under the new id for that item and those parties, approved by the caller at `now`, and changes no other transfer row. The item goes to `to_user` as `Checked In`, and no other item changes. Exactly one log entry is appended, by the caller, whose action parses back as `TRANSFER_APPROVED` from `from_user` to `to_user`. Storage, cases and reports stay as they were. |
| Transfers.Request | decms_node/controllers/transfersController.js:139-143 | The public request adds one `Requested` row under the new id, with no decision yet, and changes no other transfer row. Exactly one log entry is appended, by `from_user`, whose action parses back as `TRANSFER_REQUEST` between the two parties. The evidence table stays as it was. |
| Transfers.CreateTransfer | decms_node/controllers/transfersController.js:21-43 | Missing fields give 400 "Missing fields". A failure of any of the four statements rolls everything back with 500. Otherwise the row is inserted already approved, custody moves to `to_user` ("Checked In"), the action is logged, and the reply names the new id. |
| Transfers.CreateTransferPublic | decms_node/controllers/transfersController.js:83-152 | Missing fields give 400. Unresolved parties give 400 "Could not resolve from/to user ids". A failure gives 500 with nothing stored. Otherwise a `Requested` row and its log entry are stored, and the evidence table is never touched. |
| Transfers.SaveRequest | decms_node/controllers/transfersController.js:137-148 | The request row and its log entry are stored together or not at all. |
| Transfers.DecisionCheck | decms_node/controllers/transfersController.js:162-165 | Not found if and only if the id is absent. Refused if and only if the status is set, non-empty and not `Requested`. Otherwise open, with the row. |
| Transfers.Decide | decms_node/controllers/transfersController.js:168 | A decision sets the verdict, the caller as `approved_by` and `now` as `decision_date`. New remarks replace `decision_remarks` only when given; otherwise the old ones stay (`COALESCE`). The request fields (item, parties, remarks, date) are kept. |
| Transfers.Approval | decms_node/controllers/transfersController.js:166-171 | Approval marks the row `Approved` by the caller at `now`, with the `COALESCE` rule for `decision_remarks`, and adds or changes no other transfer row. The row's item goes to the row's `to_user` as `Checked In`, and no other item changes. Exactly one log entry is appended, by the caller, whose action parses back as `TRANSFER_APPROVED` between the row's parties. Storage, cases and reports stay as they were. |
| Transfers.Rejection | decms_node/controllers/transfersController.js:194-198 | Rejection marks the row `Rejected` by the caller at `now`, with the `COALESCE` rule for `decision_remarks`, and adds or changes no other transfer row. The evidence table stays as it was. Exactly one log entry is appended, by the caller, whose action parses back as `TRANSFER_REJECTED` between the row's parties. |
| Transfers.ApproveTransfer | decms_node/controllers/transfersController.js:155-180 | 404 "Transfer not found". 400 "Cannot approve transfer with status S". A failure of any statement rolls back with 500. Otherwise custody moves to the row's `to_user`, the row is marked approved with COALESCEd remarks, the action is logged, and the reply is 200 "Approved". |
| Transfers.RejectTransfer | decms_node/controllers/transfersController.js:183-207 | The same guards. The row is marked rejected and logged, and the evidence table is unchanged on every path. |
| Transfers.DecisionIsFinal | decms_node/controllers/transfersController.js:165-168 | After one decision, a second one is refused and reports the verdict as the status. |
| Transfers.RequestThenApprove | decms_node/controllers/transfersController.js:139-171 | A public request leaves custody alone and stays open. Approving it gives the item to the requested recipient, and the two log entries name the same parties. |
| Transfers.TransfersForEvidence | decms_node/controllers/transfersController.js:45-51 | The listing holds exactly the item's transfers, each once, by ascending `transfer_date`. |
| Evidence.StorageNameTrimmed | decms_node/controllers/evidenceController.js:14-15 | A storage name is never blank and has no white space at either end. |
| Evidence.ClassifyStorage | decms_node/controllers/evidenceController.js:7-15 | Only a number or a string of decimal digits is taken as a storage id. Anything else that is not empty, null or blank becomes a non-empty name, including `true`, `false` and `[object Object]`. |
| Evidence.DigitStringIsId | decms_node/controllers/evidenceController.js:11 | A decimal string is used as the storage id it denotes. |
| Evidence.PaddedDigitsAreAName | decms_node/controllers/evidenceController.js:11-14 | `" 12"` fails the digits test and becomes the location named `12`. |
| Evidence.FindStorage | decms_node/controllers/evidenceController.js:16-17 | The name lookup finds the lowest-keyed location of that name. It finds none only when no location has it. |
| Evidence.Resolution | decms_node/controllers/evidenceController.js:6-24 | The item gets no storage id if and only if the value is empty, null or blank. No existing location is ever removed. |
| Evidence.ResolutionNamesRow | decms_node/controllers/evidenceController.js:6-24 | A name resolves to a location of that name, and adds at most one row without changing the others. Anything else leaves the locations alone. |
| Evidence.ResolutionIdempotent | decms_node/controllers/evidenceController.js:16-23 | Resolving the same value again finds what the first call found or created, and adds nothing. |
| Evidence.ResolveStorageId | decms_node/controllers/evidenceController.js:6-24 | The id and the new storage table are the resolution of the old table. Nothing else changes, and the storage counter moves only when a row is added. |
| Evidence.RecordItem | decms_node/controllers/evidenceController.js:158-163 | Storage is resolved before the insert. A failing insert keeps the new location but adds no item. |
| Evidence.CreateEvidence | decms_node/controllers/evidenceController.js:26-39 | 400 "Missing fields" without case or type. Otherwise the outcome is `Intake` with the caller as collector: the row has no custodian and status `Collected`, and the reply is 201 with the new id. |
| Evidence.CreateEvidencePublic | decms_node/controllers/evidenceController.js:120-166 | The same guard. The outcome is `Intake` with the resolved person as both `collected_by` and `current_custodian_id`. |
| Evidence.IntakeReadsBack | decms_node/controllers/evidenceController.js:41-48 | After a successful intake, the item reads back with the given collector and custodian, is `Collected`, may be deleted, and points at a location of the sent name. |
| Evidence.GetEvidence | decms_node/controllers/evidenceController.js:41-48 | 200 with the row if and only if the id exists; otherwise 404 "Not found". |
| Evidence.SetStatus | decms_node/controllers/evidenceController.js:96 | The status update gives item `id` the sent status and changes none of its other columns. It keeps the set of ids and every other row, and changes nothing for an unknown id. |
| Evidence.StatusAction | decms_node/controllers/evidenceController.js:98 | The log action is `STATUS:` followed by the status sent, or by `null` for a null status. |
| Evidence.UpdateEvidence | decms_node/controllers/evidenceController.js:92-101 | If the update fails, nothing changes. If only the log insert fails, the status stays changed with no log entry. Otherwise the status is set and `STATUS:<status>` is logged, with `null` for a null status. The reply is "Updated" even for an unknown id. |
| Evidence.DeleteCheck | decms_node/controllers/evidenceController.js:106-108 | Missing if and only if the id is absent. Blocked if and only if the status is `Under Analysis`. |
| Evidence.DeleteEvidence | decms_node/controllers/evidenceController.js:103-115 | 404 "Not found". 400 "Cannot delete while Under Analysis". Otherwise the item is removed and nothing else changes. |
| Evidence.AnalysisBlocksDeletion | decms_node/controllers/evidenceController.js:108 | An item under analysis survives every delete request. |
| Cases.CreateCase | decms_node/controllers/caseController.js:20-28 | 400 "case_title required". Otherwise an `Open` case with the given assignee is inserted and its id returned. |
| Cases.GetCase | decms_node/controllers/caseController.js:30-38 | 404 "Case not found". Otherwise the case together with exactly its evidence items, each once. |
| Cases.UpdateCase | decms_node/controllers/caseController.js:40-47 | Any status is stored on that case only, and "Updated" is answered even for an unknown id. |
| Cases.CaseNumber | decms_node/controllers/caseController.js:138 | A case number starts with `CS-` and is at least seven characters long. |
| Cases.CaseNumberRoundTrip | decms_node/controllers/caseController.js:138 | `CS-` plus the zero-padded id reads back as the id. |
| Cases.CaseNumberInjective | decms_node/controllers/caseController.js:138 | Two cases never share a number. |
| Cases.CaseNumberLength | decms_node/controllers/caseController.js:138 | Ids up to 9999 give seven characters. Longer ids are written in full, never cut. |
| Cases.CaseColumnsEnds | decms_node/controllers/caseController.js:109-131 | The insert starts with title and description and ends with status and creation time. |
| Cases.CaseColumnsMembers | decms_node/controllers/caseController.js:113-128 | An optional column is inserted if and only if the table has it. |
| Cases.CaseColumnsOrdered | decms_node/controllers/caseController.js:109-131 | The columns appear in push order, so none is repeated. |
| Cases.BuildInsert | decms_node/controllers/caseController.js:109-133 | The pushed columns are exactly the schema's, and each column is paired with its own placeholder or literal. |
| Cases.InsertedCaseBySchema | decms_node/controllers/caseController.js:113-131 | The built insert writes the assignee to `assigned_to` and `created_by` and `PENDING` to `case_number`, each only where the table has the column. |
| Cases.SavePublicCase | decms_node/controllers/caseController.js:134-143 | The insert, then the numbering. A failure of the second statement keeps the unnumbered case. |
| Cases.CreateCasePublic | decms_node/controllers/caseController.js:52-149 | 400 "case_title required". Otherwise the outcome is `PublicOutcome`: the row follows the table's columns, and with a `case_number` column the reply and the stored row carry `CS-` and the padded id. |
| Cases.NumberedCaseReadsBack | decms_node/controllers/caseController.js:137-140 | After numbering, the stored number parses back to the case's own id. |
| Reports.CreateReport | decms_node/controllers/reportController.js:4-15 | 400 "Missing fields" without item or findings. Otherwise a report by the caller is inserted. |
| Reports.ReportsForEvidence | decms_node/controllers/reportController.js:17-23 | Exactly the item's reports, each once, newest first. |
| Reports.ResolveAnalyst | decms_node/controllers/reportController.js:64-129 | The analyst is found by email, then by name (name column, or the first/last split on the first space), then as the item's custodian or collector, then by role preference or, without a role column, as the lowest id. |
| Reports.EvidenceFallback | decms_node/controllers/reportController.js:104-108 | The item yields nobody if and only if it is missing or has neither a custodian nor a collector. Otherwise it yields its custodian when set, else its collector, never 0. |
| Reports.AnalystChain | decms_node/controllers/reportController.js:64-129 | An item with a custodian or collector always yields an analyst. When neither the request nor the item names one, the analyst is `DefaultAnalyst`: the first user by role preference with a role column, else the lowest id (reportController.js:110-127). |
| Reports.AnalystWithoutRoleColumn | decms_node/controllers/reportController.js:124-127 | Without a role column, a non-empty users table always yields an analyst. |
| Reports.AnalystMissing | decms_node/controllers/reportController.js:104-129 | With a role column, no analyst is found if and only if no lookup matches, the item gives no custodian or collector, and no user holds one of the three roles. |
| Reports.CustodianBeforeDefault | decms_node/controllers/reportController.js:104-108 | When the request names nobody, the item's custodian wins over every default. |
| Reports.CreateReportPublic | decms_node/controllers/reportController.js:57-139 | 400 "Missing fields". A failing insert gives 500. Otherwise the report names the resolved analyst. |
| PyMiddleware.CurrentUser | DECMS_BACKEND/app/middleware.py:9-14 | A user is found if and only if the identity is truthy and names a stored user. |
| PyMiddleware.PermissionRequired | DECMS_BACKEND/app/middleware.py:16-43 | Without a valid token, `jwt_required` refuses. Without a user: 401 "User not found". Without a truthy role attribute: 403. Otherwise the view runs on its arguments. |
| PyMiddleware.UnknownPermissionDenied | DECMS_BACKEND/app/middleware.py:37 | A permission name that is neither a column nor the `users` relationship of `roles` shuts the route for everyone. |
| PyMiddleware.UsersRelationshipAdmits | DECMS_BACKEND/app/middleware.py:37 | `permission_required("users")` reads the role's non-empty `users` relationship, so every user that is found gets through. |
| PyMiddleware.TransferFlagDecides | DECMS_BACKEND/app/middleware.py:37-41 | For a flag column, the role's flag alone decides. |
| PyMiddleware.AuditEntry | DECMS_BACKEND/app/middleware.py:52-60 | The audit row carries the current user's id, or none without a user, and the action, details and address. |
| PyMiddleware.LogAudit | DECMS_BACKEND/app/middleware.py:45-69 | On failure the exception is swallowed and the whole session is rolled back. Otherwise the row is staged, and committed only with `commit_now`. |
| PyMiddleware.LogAuditIsolated | DECMS_BACKEND/app/middleware.py:45-69 | The corrected helper: a failure discards only the audit row. |
| PySession.Session.Now | DECMS_BACKEND/app/services.py:98 | Each timestamp is the clock reading, and the clock moves strictly forward. |
| PySession.Session.AddItem | DECMS_BACKEND/app/services.py:30-32 | A flushed item gets the next id, which is unused. |
| PySession.Session.SetItem | DECMS_BACKEND/app/services.py:124-126 | Changing a loaded item replaces that item in the pending state only. |
| PySession.Session.AddTransfer | DECMS_BACKEND/app/services.py:113-121 | A new link is appended to the pending transfers. It must be newer than every link already there. |
| PySession.Session.AddAudit | DECMS_BACKEND/app/middleware.py:55-61 | An audit row is appended to the pending state only. |
| PySession.Session.Commit | DECMS_BACKEND/app/services.py:61 | A commit makes the pending state durable, or changes nothing when refused. |
| PySession.Session.Rollback | DECMS_BACKEND/app/services.py:65 | A rollback discards everything not committed. |
| Custody.LinkDataInjective | DECMS_BACKEND/app/services.py:99-106 | The hash input `LinkData` fixes the previous hash (a hex digest, so comma-free) and every field of the transfer. |
| Custody.GenesisDataInjective | DECMS_BACKEND/app/services.py:38-43 | The genesis hash input `GenesisData` fixes the initial hash, item, creator and custodian, for any initial hash the caller sends, commas included. |
| Custody.GenesisTransfer | DECMS_BACKEND/app/services.py:38-52 | The genesis link goes from the creator to the initial custodian. Its notes end with the initial hash, and its hash covers the initial hash, the item, the creator and the custodian. |
| Custody.Latest | DECMS_BACKEND/app/services.py:86-88 | The latest transfer of an item is its last link. There is none only when the item has no transfer. This equals the query's answer only under the strictly increasing clock; see "Left out". |
| Custody.LatestIsNewest | DECMS_BACKEND/app/services.py:86-88 | In a well-formed session the last link has the greatest timestamp, so `ORDER BY transfer_timestamp DESC` finds it. |
| Custody.TransferCheck | DECMS_BACKEND/app/services.py:76-92 | ValueError if and only if the item is missing. PermissionError if and only if `from` is not the custodian. LookupError if and only if there is no previous link. Otherwise the previous link is found. |
| Custody.NewLink | DECMS_BACKEND/app/services.py:94-120 | A new link carries the item, both users and its timestamp, and its hash covers the hash of the item's latest link. |
| Custody.Transferred | DECMS_BACKEND/app/services.py:111-126 | A transfer appends exactly one link after the existing ones, hands the item to `to` with status `Transferred`, and leaves the audit rows alone. |
| Custody.LinkedNeverLookupError | DECMS_BACKEND/app/services.py:90-92 | On a linked chain, the "genesis not found" branch cannot be reached. |
| Custody.GenesisKeepsChain | DECMS_BACKEND/app/services.py:14-62 | Creating an item with its genesis link keeps every hash linked and every custodian recorded. |
| Custody.TransferKeepsChain | DECMS_BACKEND/app/services.py:96-126 | A cleared transfer keeps the chain linked and hands the item to `to`, with the stored stamp taken to be the hashed one. |
| Custody.FormerCustodianRefused | DECMS_BACKEND/app/services.py:82-83 | After a handover, the former custodian is refused with PermissionError. |
| Custody.NextLinkCoversPrevious | DECMS_BACKEND/app/services.py:94-109 | The next link's hash covers the hash of the link just added. |
| Custody.StageInitialEntry | DECMS_BACKEND/app/services.py:20-53 | Staging adds the item under the flushed id together with its genesis link, and commits nothing. |
| Custody.CreateInitialEvidenceEntry | DECMS_BACKEND/app/services.py:14-67 | Returns None if and only if storing fails: the flush or the commit (`storeFault`). If the audit row fails, nothing is stored although the id is returned. Otherwise the item, its genesis link and the audit row are committed. |
| Custody.CreateInitialEvidenceEntryIsolated | DECMS_BACKEND/app/services.py:14-67 | The corrected service: an id is returned if and only if the item was committed. |
| Custody.StageTransfer | DECMS_BACKEND/app/services.py:94-126 | Staging a cleared transfer appends the new link and hands the item over, and commits nothing. |
| Custody.CreateEvidenceTransfer | DECMS_BACKEND/app/services.py:69-141 | The guards raise before anything changes. A failure to store (`storeFault`) gives None. If the audit row fails, the link is returned but not stored. Otherwise the link, the new custodian and the audit row are committed. |
| Custody.CreateEvidenceTransferIsolated | DECMS_BACKEND/app/services.py:69-141 | The corrected service: a link is returned if and only if it was committed. |
| Custody.AuditFailureLosesTransfer | DECMS_BACKEND/app/middleware.py:66-69 | A concrete run where the returned link is missing from the committed transfers. |
| Custody.ServicesKeepChain | DECMS_BACKEND/app/services.py:14-141 | What either service commits on success is still a linked chain: a new item with its genesis link, or a cleared transfer, each with its audit row. The stored stamp is taken to be the hashed one. |

## Left out

- Token verification (`jwt.verify`) and SHA-256 are function parameters. No property depends on what they compute.
- The Python timestamp is a strictly increasing clock reading rendered in decimal, not ISO-8601.
- Custody.Latest: the query `order_by(transfer_timestamp.desc()).first()` is modelled as the item's last inserted link. This holds only because the model's clock strictly increases and PySession.Session.AddTransfer demands a newer stamp. In the source, `transfer_timestamp` is a `db.TIMESTAMP` column (models.py:85) on whatever engine `DATABASE_URL` names (config.py:14). On MySQL, one of the two engines run.py:8 names, that column keeps whole seconds unless declared with a fraction; the engine and its precision are assumptions here, not something the source fixes. The genesis link is stamped by the column default and later links by `datetime.utcnow()` (services.py:98). Two links of one item can therefore carry equal stamps, or a later link an earlier stamp when the clock steps back. The query may then return an older link, and the next hash would not cover the latest one, forking the chain. Equal stored stamps and a clock stepping back are excluded here.
- Custody.HashesLinked: the model keeps one `transfer_timestamp` per link, both hashed and stored. The source hashes `new_timestamp.isoformat()`, microseconds included (services.py:98-106), and stores the same datetime in the `TIMESTAMP` column (services.py:113-117). The model therefore assumes a column that keeps microseconds. With a whole-second column, a committed link's stored fields would not recompute to its `transfer_hash`, and the committed chain would not be linked in this sense. Custody.TransferKeepsChain, Custody.NextLinkCoversPrevious and Custody.ServicesKeepChain rest on this assumption. Custody.LatestIsNewest, Custody.NextLinkCoversPrevious, Custody.TransferKeepsChain and Custody.ServicesKeepChain rest on that exclusion.
- PyMiddleware.UnknownPermissionDenied: `getattr` reads the five columns of `roles` and its `users` relationship. Other attributes a mapped class carries, such as `query` and `metadata`, are truthy in the source but are read as the default `False` here.
- Schema detection by `INFORMATION_SCHEMA` queries is replaced by its outcome, the `UsersSchema` and `CasesSchema` parameters. The `GROUP_CONCAT` length cut-off that could hide the `role` column is not modelled.
- `ensureTransfersSchema` (DDL) is not modelled.
- `getAllTransfers`, `getEvidenceByCase`, `getAllEvidencePublic`, `getCases`, `getCasesPublic` and `getReportsPublic` are not modelled. They are plain read queries outside the custody core.
- File uploads and the deletion of an item's file (`fs.unlinkSync`) are left out. The routes model only whether the upload stage runs.
- Concurrency is left out, including `FOR UPDATE` locks and interleaved requests. Each handler runs alone.
- Failures of read queries and of the storage lookup/insert inside `resolveStorageId` are left out. Only the writes of each handler can fail.
- Request ids arrive as strings in Express. The model takes them as numbers, and JavaScript numbers as integers. Non-integer numbers and `parseInt` precision are not modelled.
- MySQL collation is not modelled: comparisons are exact string equality, with no case folding or trailing-space rules.
- Foreign keys are not modelled. A transfer, report or item may name a row that does not exist, as the handlers do not check.
- mysql2 refuses `undefined` bind values. The model treats an absent optional field as NULL.
- Evidence.UpdateEvidence: a request without `current_status` is modelled as one sending null. In the source the driver refuses the undefined bind and the handler answers 500.
- Evidence.ClassifyStorage: JSON arrays sent as `storage_location` are not modelled. Only scalars and plain objects are.
- A `LIMIT 1` without `ORDER BY`, and ties in `ORDER BY`, are taken in primary-key order. Transfers.TransfersForEvidence and Reports.ReportsForEvidence promise only the sort order, which is what the queries guarantee.
- `print` of errors and the Flask `jsonify` envelope are left out.
- Transfers.CreateTransferPublic, Cases.CreateCasePublic, Evidence.CreateEvidencePublic: a lookup that throws is treated as one that finds nothing, which is what the handlers' empty `catch` blocks do.

## Findings

| source | as written | input that shows it | evidently intended | confidence | as-written member | corrected member |
|---|---|---|---|---|---|---|
| DECMS_BACKEND/app/middleware.py:66-69 | When writing the audit row fails, `log_audit` swallows the exception and rolls back the whole session, so `create_evidence_transfer` commits an empty transaction yet returns the new transfer | an item created with custodian 7; a transfer from 7 to 8 whose audit row fails: the service returns the link, the committed transfers hold only the genesis link | an audit failure must not undo the caller's work, or the caller must learn it failed: only the audit row is discarded | medium, not executed | Custody.CreateEvidenceTransfer, Custody.AuditFailureLosesTransfer | Custody.CreateEvidenceTransferIsolated, PyMiddleware.LogAuditIsolated |
