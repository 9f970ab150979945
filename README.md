# Club day sign-up: a Dafny model

This project models the logic of a small club-registration web app. Students pick a club and fill in a form; the app appends their answers as a row of that club's Google spreadsheet. An admin keeps a config spreadsheet that maps each club to its registration spreadsheet for the current academic year. The admin can also create one registration spreadsheet per club.

The model covers:

- **The config store** (`app/lib/google.ts`).
  - The academic-year label.
  - Reading the current year's club records.
  - The key-indexed upsert, which overwrites rows in place and appends new ones.
  - Normalisation of the private key.
- **The HTTP routes.**
  - `club-config` (GET, and a POST behind the admin secret).
  - `admin/save-config` (the same POST, ungated).
  - `submit-registration` (one spreadsheet) and `submit-registration-multi` (many).
  - `create-sheet` (find or create).
- **The client-side list logic** of `app/page.tsx` and `components/club-admin.tsx`.

The Google services are modelled as abstract state.

- **Config spreadsheet.** A class `ConfigSheet.ConfigSheet` holds the config rows below the header (`seq<seq<string>>`), plus counters of the requests it received.
- **Drive and registration spreadsheets.** A class `Workspace.Workspace` holds the spreadsheets (a list of `(id, name)` files in listing order), each spreadsheet's rows, and the bold-formatting requests applied.
- **Remote-call failures** come from oracles:
  - `Remote.Fault` names the one call of a request that throws. Calls are numbered in the order the handler issues them.
  - The multi-sheet route takes a per-sheet-id outcome `string -> CallOutcome`.
  - The page's "create all sheets" loop takes a per-request answer `nat -> SheetReply`.
- **Clock.** The date and the ISO timestamp are parameters (`Remote.Clock`).

The imperative code is modelled in two layers:

- **Methods** issue the same calls in the same order as the source, with loops where the source has loops:
  - `upsertConfigRows` (its index-filling and planning loops);
  - the multi-sheet fan-out loop;
  - `createAllSheets` in the page;
  - every route handler.
- **Specification functions.** Each method is proved equal to one (`UpsertRun`, `SaveUpdates`, `ClubConfigPost`, `CreateSheetRun`, `MultiRun`, `SubmitRun`, …). The lemmas state the source's promises about those functions.

Three behaviours of the routes worth knowing:

- `create-sheet` does not touch the config sheet. It only finds or creates the registration spreadsheet.
- `submit-registration` has no separate 400 for a missing `sheetId`. A request without `sheetId` (or without `data`) ends in the route's catch-all 500, "Failed to submit registration", and appends nothing.
- `admin/save-config` has no authorization check. Its first gate is the validation of `updates`.

## Model

| member | source | states |
|---|---|---|
| SchoolYear.AcademicYear | app/lib/google.ts:2-6 | The label always contains the '/' between its two years. |
| SchoolYear.StartYear | app/lib/google.ts:2-6 | The school year starts in the calendar year of the date exactly when the 0-based month is at least 7 (August), otherwise in the year before. |
| SchoolYear.AcademicYearIsRange | app/lib/google.ts:2-6 | `getAcademicYear` is `"S/S+1"` for the start year S of the date's school year: `"Y/Y+1"` from August, `"Y-1/Y"` before. |
| SchoolYear.YearRangeInjective | app/lib/google.ts:5 | Different start years give different labels. |
| SchoolYear.SameLabelIffSameSchoolYear | app/lib/google.ts:2-6 | Two dates get the same label if and only if they fall in the same school year. |
| SchoolYear.JulyToAugustChangesLabel | app/lib/google.ts:5 | July and August of one calendar year carry different labels. |
| SchoolYear.SchoolYearSpansNewYear | app/lib/google.ts:2-6 | August to December of Y and January to July of Y+1 share one label. |
| Text.NatToStringInjective | app/lib/google.ts:5 | The decimal rendering of years in the template literal is injective. |
| Text.IntToStringInjective | app/lib/google.ts:5 | The rendering with a leading '-' for negatives is injective. |
| Text.SplitAtSeparator | app/lib/google.ts:5 | A string joined around a separator absent from the left parts splits back uniquely. |
| PrivateKey.NormalizePrivateKey | app/lib/google.ts:11 | An unset key stays unset; a set key comes out without any backslash-'n' pair. |
| PrivateKey.ReplaceEscapedNewlines | app/lib/google.ts:11 | The rewrite never lengthens the key and keeps it empty exactly when it was empty. |
| PrivateKey.NoEscapedNewlineLeft | app/lib/google.ts:11 | No backslash followed by 'n' remains after the global replace. |
| PrivateKey.UnchangedIffNoEscape | app/lib/google.ts:11 | The key is unchanged if and only if it held no backslash-'n' pair. |
| PrivateKey.NoBackslashUnchanged | app/lib/google.ts:11 | A key without any backslash passes through untouched. |
| ConfigStore.ParseRow | app/lib/google.ts:77-83 | Field i of the record is cell i of the row when the row has it, and `""` otherwise. |
| ConfigStore.ParseWrittenRow | app/lib/google.ts:77-83 | A record written as five cells parses back to the same record. |
| ConfigStore.ParsePadsShortRows | app/lib/google.ts:77-83 | Parsing takes cells 0..4 by position and pads missing cells with `""`. |
| ConfigStore.ReadConfigForYear | app/lib/google.ts:66-85 | The result is no longer than the table; every record has the requested year; a record is returned if and only if some stored row parses to it with that year. |
| ConfigStore.ReadConfigOfConcat | app/lib/google.ts:76-84 | Reading distributes over concatenation, so records come back in storage order. |
| ConfigStore.ReadSkipsOtherYears | app/lib/google.ts:84 | Rows of other years contribute nothing. |
| ConfigStore.Key | app/lib/google.ts:101-107 | The key is as long as the club id, the one separator and the year together. |
| ConfigStore.RowKey | app/lib/google.ts:101-107 | A stored row with at least four cells is keyed by its cells 0 and 3, as an update is by its club id and year. |
| ConfigStore.NewRow | app/lib/google.ts:113-116 | A written row has five cells, and cells 3 and 4 are the call's year and `now`. |
| ConfigStore.KeyDeterminesClub | app/lib/google.ts:101-107 | Within one year, equal joined keys mean equal club ids. |
| ConfigStore.KeyIsPair | app/lib/google.ts:101-107 | When club ids contain no vertical bar, the joined keys are equal if and only if the (clubId, year) pairs are. |
| ConfigStore.KeysCollideAcrossYears | app/lib/google.ts:101-107 | With a vertical bar inside a club id, two different pairs share one joined key. |
| ConfigStore.NewRowKey | app/lib/google.ts:101-116 | A row written for an update carries that update's key. |
| ConfigStore.IndexByKey | app/lib/google.ts:99-103 | Every index entry is a row position inside the table. |
| ConfigStore.IndexByKeyIsLastOccurrence | app/lib/google.ts:99-103 | The index holds exactly the keys of the table, each mapped to the last row holding it. |
| ConfigStore.IndexByKeyInjective | app/lib/google.ts:99-103 | Distinct keys are mapped to distinct rows. |
| ConfigStore.PlanUpsert | app/lib/google.ts:104-118 | The two lists together hold one entry per update; every scheduled row has five cells, the call's year and the call's `now`. |
| ConfigStore.PlanWritesWithin | app/lib/google.ts:108-114 | Every scheduled overwrite addresses sheet row index+2 of a stored row. |
| ConfigStore.ApplyWrites | app/lib/google.ts:119-127 | A batched overwrite keeps the table's length. |
| ConfigStore.UpsertWith | app/lib/google.ts:106-118 | Taking updates one at a time against a fixed index never shrinks the table. |
| ConfigStore.Upserted | app/lib/google.ts:86-139 | The upserted table is at least as long as the original. |
| ConfigStore.TwoPhaseMatchesUpsert | app/lib/google.ts:106-138 | One batch of all overwrites followed by one append of all new rows gives the same table as taking the updates one at a time against the unchanged index. |
| ConfigStore.UpsertOne | app/lib/google.ts:106-118 | A single update overwrites the indexed row in place when its key is stored, otherwise it appends one row. |
| UpsertFacts.FreshUpdates | app/lib/google.ts:115-117 | The appended updates are exactly those whose key is not in the index. |
| UpsertFacts.NewRows | app/lib/google.ts:116 | Row k of the appended rows is built from update k. |
| UpsertFacts.UpsertedAppendsFreshRows | app/lib/google.ts:106-138 | The table grows by exactly the number of updates with unknown keys, and their rows follow the old table in input order. |
| UpsertFacts.UpsertedKeepsUntargetedRows | app/lib/google.ts:106-127 | A stored row no update is aimed at keeps its contents. |
| UpsertFacts.UpsertedOverwritesLastTarget | app/lib/google.ts:99-127 | For a stored key, the last row holding it gets `[clubId, clubName, sheetId, year, now]` from the last update naming that club. |
| UpsertFacts.UpsertedKeepsKeys | app/lib/google.ts:106-127 | Stored rows keep their composite keys. |
| UpsertFacts.WrittenRowsShareTimestamp | app/lib/google.ts:98-116 | Every row the call writes, overwritten or appended, has five cells, the call's year and its one shared `now`. |
| UpsertFacts.ReadAfterUpsertHasLastUpdates | app/lib/google.ts:66-139 | After the upsert, reading the year returns the record of the last update for every club in the call. |
| UpsertFacts.UpsertTwiceIsIdempotent | app/lib/google.ts:99-118 | A second identical single update adds no row, and that key's row holds the second call's values; other rows are unchanged. |
| UpsertFacts.RepeatedNewKeyAppendsTwice | app/lib/google.ts:106-118 | The index is not updated inside the loop, so one new key given twice is appended twice. |
| UpsertFacts.FreshUpdatesDistinct | app/lib/google.ts:115-117 | Appended updates keep the distinctness of the club ids. |
| UpsertFacts.UpsertKeepsKeysUnique | app/lib/google.ts:99-138 | An upsert whose updates name distinct clubs keeps the one-row-per-key invariant. |
| ConfigSheet.PlanRun | app/lib/google.ts:119-138 | The writes issue at most two calls. A completed run leaves the overwritten table followed by the new rows; a throwing one leaves the old table or only the overwrites. |
| ConfigSheet.UpsertRun | app/lib/google.ts:86-139 | The upsert issues one to three remote calls. |
| ConfigSheet.CompletedRunUpserts | app/lib/google.ts:86-139 | An upsert that gets through leaves exactly the upserted table. |
| ConfigSheet.HealthyRunCompletes | app/lib/google.ts:86-139 | Without a fault the upsert gets through. |
| ConfigSheet.FailedRunAppendsNothing | app/lib/google.ts:119-138 | A throwing upsert has appended nothing; the table is unchanged or carries only the batched overwrites. |
| ConfigSheet.CompletedRunCalls | app/lib/google.ts:119-138 | One read, one batchUpdate exactly when some key was stored, one append exactly when some was not; never one call per row. |
| ConfigSheet.BuildIndex | app/lib/google.ts:99-103 | The `forEach` loop builds exactly `IndexByKey`, the map from every stored key to its last row. |
| ConfigSheet.PlanUpdates | app/lib/google.ts:104-118 | The `for` loop builds exactly `PlanUpsert`'s two lists. |
| ConfigSheet.ConfigSheet.constructor | app/lib/google.ts:93-97 | A config sheet starts with the given rows and no requests counted. |
| ConfigSheet.ConfigSheet.EnsureConfigSheet | app/lib/google.ts:24-31 | The `spreadsheets.get` probe of `CONFIG_SPREADSHEET_ID` succeeds or throws. |
| ConfigSheet.ConfigSheet.ValuesGet | app/lib/google.ts:93-97 | `values.get` returns the stored rows and changes nothing else. |
| ConfigSheet.ConfigSheet.ReadConfig | app/lib/google.ts:66-85 | One `values.get`, then exactly `ReadConfigForYear` of the stored rows. |
| ConfigSheet.ConfigSheet.BatchUpdate | app/lib/google.ts:119-127 | On success the writes replace their rows in order; on failure nothing changes. |
| ConfigSheet.ConfigSheet.Append | app/lib/google.ts:128-138 | On success the rows go after the last row; on failure nothing changes. |
| ConfigSheet.ConfigSheet.UpsertConfigRows | app/lib/google.ts:86-139 | The rows and call count are exactly `UpsertRun`'s. At most one batchUpdate and at most one append are issued, and neither when its list is empty. |
| ConfigSheet.ConfigSheet.WritePlan | app/lib/google.ts:119-138 | The writes and the table are exactly `PlanRun`'s. One batchUpdate is issued exactly when there are overwrites, and at most one append, none when there are no new rows. |
| ConfigRoutes.IsAuthorized | app/api/club-config/route.ts:9-13 | Authorized if and only if `ADMIN_SECRET` is set and non-empty and the header equals it. |
| ConfigRoutes.NoSecretLocksEveryone | app/api/club-config/route.ts:9-13 | With no secret configured, no header is authorized. |
| ConfigRoutes.ValidUpdates | app/api/club-config/route.ts:36-39 | `updates` passes if and only if it is a non-empty array, and then it is passed on unchanged. |
| ConfigRoutes.SaveUpdates | app/api/club-config/route.ts:40-53 | The shared save answers 200 or 500. |
| ConfigRoutes.ClubConfigGet | app/api/club-config/route.ts:14-29 | GET answers 200 or 500. |
| ConfigRoutes.ClubConfigPost | app/api/club-config/route.ts:30-54 | POST answers 200, 400, 401 or 500. |
| ConfigRoutes.SaveConfigPost | app/api/admin/save-config/route.ts:9-28 | save-config answers 200, 400 or 500, never 401. |
| ConfigRoutes.GetReturnsCurrentYear | app/api/club-config/route.ts:14-28 | A 200 holds exactly this year's records in storage order, all of this year. A 500 holds "Failed to load config". Without a fault GET answers 200. |
| ConfigRoutes.UnauthorizedPostTouchesNothing | app/api/club-config/route.ts:32-34 | An unauthorized POST answers 401 "Unauthorized" with the table unchanged, whatever the body and the services would do. |
| ConfigRoutes.RejectedPostKeepsStore | app/api/club-config/route.ts:35-39 | An authorized POST answers 400 if and only if `updates` is missing, not an array or empty, and then the table is unchanged. |
| ConfigRoutes.SaveSucceeds | app/api/club-config/route.ts:40-45 | A 200 stores the upserted table and answers this year's records read back from it. Without a fault the save answers 200. |
| ConfigRoutes.FailedSaveAppendsNothing | app/api/club-config/route.ts:46-53 | A 500 from the save holds "Failed to save config"; the table keeps its length unless the upsert completed. |
| ConfigRoutes.AuthorizedPostUpserts | app/api/club-config/route.ts:30-54 | An authorized POST with a non-empty list returns `{academicYear, clubs: readConfigForYear(upsert(table))}`, or exactly 500 "Failed to save config". |
| ConfigRoutes.SaveConfigIsUngatedPost | app/api/admin/save-config/route.ts:9-28 | save-config answers exactly as an authorized club-config POST, for every body, table and fault. |
| ConfigRoutes.SaveConfigValidatesFirst | app/api/admin/save-config/route.ts:13-27 | save-config answers 400 if and only if `updates` is invalid, leaving the table unchanged. Every 500 holds "Failed to save config". |
| ConfigRoutes.Save | app/api/club-config/route.ts:40-45 | The method issuing probe, upsert and read yields `SaveUpdates`' response and table. |
| ConfigRoutes.HandleGet | app/api/club-config/route.ts:14-29 | The GET method answers `ClubConfigGet` and writes no row. |
| ConfigRoutes.HandleClubConfigPost | app/api/club-config/route.ts:30-54 | The POST method yields `ClubConfigPost`'s response and table. On a 401, a 400 or an unparseable body no request reaches the config sheet. |
| ConfigRoutes.HandleSaveConfigPost | app/api/admin/save-config/route.ts:9-28 | The save-config method yields `SaveConfigPost`'s response and table. On a 400 or an unparseable body no request reaches the config sheet. |
| Workspace.Named | app/api/create-sheet/route.ts:28-31 | A file is listed if and only if it is in the drive with exactly that name. |
| Workspace.NamedSnoc | app/api/create-sheet/route.ts:28-48 | A file added to the drive is listed last under its name. |
| Workspace.WriteFirstRow | app/api/create-sheet/route.ts:66-73 | Writing A1:F1 replaces the first row and keeps the others. |
| Workspace.Workspace.constructor | app/api/create-sheet/route.ts:25-26 | The drive and spreadsheet clients start from the given state. |
| Workspace.Workspace.ListFiles | app/api/create-sheet/route.ts:28-31 | `files.list` returns the drive's files of that name, or fails; it changes nothing. |
| Workspace.Workspace.CreateFile | app/api/create-sheet/route.ts:43-54 | A create that answers an id adds one empty spreadsheet of that name last. Otherwise nothing changes. |
| Workspace.Workspace.WriteHeader | app/api/create-sheet/route.ts:66-73 | `values.update` of A1:F1 sets the first row of that spreadsheet only. |
| Workspace.Workspace.Embolden | app/api/create-sheet/route.ts:76-100 | The bold request is recorded for that spreadsheet and range. |
| Workspace.Workspace.AppendRows | app/api/submit-registration-multi/route.ts:23-29 | `values.append` adds the rows at the end of that spreadsheet only. |
| CreateSheetRoute.InlineAcademicYear | app/api/create-sheet/route.ts:8-14 | The route's inline academic year equals `getAcademicYear` for the same date. |
| CreateSheetRoute.SheetName | app/api/create-sheet/route.ts:29-45 | The name searched for and given to the new file starts with the club name. |
| CreateSheetRoute.CreateSheetRun | app/api/create-sheet/route.ts:4-111 | Answers 200 or 500, and every 500 holds "Failed to create sheet". |
| CreateSheetRoute.ExistingSheetIsReused | app/api/create-sheet/route.ts:28-41 | When the search for `"<clubName> Registration <year>"` lists a file, the first one's id is returned with `existing:true` and the drive is unchanged. |
| CreateSheetRoute.MissingSheetIsCreated | app/api/create-sheet/route.ts:43-106 | Otherwise the route adds one file of that name, writes the six-cell header and bolds row 0, columns 0 to 5. No other spreadsheet changes, and the route answers the new id with `existing:false`. |
| CreateSheetRoute.MissingIdFails | app/api/create-sheet/route.ts:50-54 | A create without an id ends in 500 and adds nothing. |
| CreateSheetRoute.AnsweredSheetIsListedFirst | app/api/create-sheet/route.ts:33-106 | After a 200, the first file listed under the sheet name is the one whose id was answered. |
| CreateSheetRoute.SecondCallFindsFirst | app/api/create-sheet/route.ts:28-45 | After a 200, a second call for the same club and academic year, when its listing succeeds, answers `existing:true` with the first call's id and changes nothing. |
| CreateSheetRoute.CreateSheet | app/api/create-sheet/route.ts:4-111 | The method issuing list, create, header write and bold yields `CreateSheetRun`'s response and drive. |
| SubmitRegistrationMulti.RegistrationRow | app/api/submit-registration-multi/route.ts:10-19 | Six cells: timestamp, email, name, grade, then "Yes"/"No" for consent, then discord or "Not provided". |
| SubmitRegistrationMulti.RowCellsAreFilled | app/api/submit-registration-multi/route.ts:16-17 | The consent cell is "Yes" or "No", and the discord cell is never blank. |
| SubmitRegistrationMulti.DeliveryOf | app/api/submit-registration-multi/route.ts:30-33 | Success is recorded as `ok:true` without an error. A failure is recorded as `ok:false` with its message, or "Unknown error" when that is empty. |
| SubmitRegistrationMulti.Deliveries | app/api/submit-registration-multi/route.ts:20-35 | `results` has one entry per element of `sheetIds`, in order, duplicates included. |
| SubmitRegistrationMulti.OkCount | app/api/submit-registration-multi/route.ts:36 | `ok` is at most the number of results. |
| SubmitRegistrationMulti.OkCountConcat | app/api/submit-registration-multi/route.ts:36 | The count of a concatenation is the sum of the counts. |
| SubmitRegistrationMulti.OkCountAt | app/api/submit-registration-multi/route.ts:36 | Result i adds one to `ok` exactly when it is ok, on top of the results before and after it. |
| SubmitRegistrationMulti.OkCountBounds | app/api/submit-registration-multi/route.ts:36-37 | `ok` equals `total` if and only if every append succeeded, and is 0 if and only if none did. |
| SubmitRegistrationMulti.Delivered | app/api/submit-registration-multi/route.ts:21-35 | No spreadsheet disappears, and a spreadsheet whose id is not listed keeps its rows. |
| SubmitRegistrationMulti.DeliveredGrid | app/api/submit-registration-multi/route.ts:21-35 | A spreadsheet whose append succeeds gains the row at its end once per listing of its id. Failed and unlisted spreadsheets are unchanged. |
| SubmitRegistrationMulti.MultiRun | app/api/submit-registration-multi/route.ts:3-42 | The route answers 200, 400 or 500. |
| SubmitRegistrationMulti.SheetIdsRequired | app/api/submit-registration-multi/route.ts:6-8 | 400 "sheetIds[] required" if and only if `sheetIds` is missing, not an array or empty; nothing is appended. |
| SubmitRegistrationMulti.FailureAppendsNothing | app/api/submit-registration-multi/route.ts:38-41 | Any 500 is "Failed to submit" with nothing appended. |
| SubmitRegistrationMulti.FanOutReport | app/api/submit-registration-multi/route.ts:20-37 | A 200 reports one result per id in order, `total` the number of ids and `ok` the successes. Every id is attempted even after an earlier failure, and each destination gains exactly its appended rows. |
| SubmitRegistrationMulti.SubmitMulti | app/api/submit-registration-multi/route.ts:3-42 | The method's loop of appends yields `MultiRun`'s response and spreadsheets. |
| SubmitRegistration.RawRow | app/api/submit-registration/route.ts:20 | Six cells; the consent and discord cells are stored as sent, unlike the multi route's "Yes"/"No" and "Not provided". |
| SubmitRegistration.RawRowInjective | app/api/submit-registration/route.ts:20 | The stored row determines the data it came from: all six fields are kept. |
| SubmitRegistration.SubmitRun | app/api/submit-registration/route.ts:4-36 | The route answers 200 or 500. |
| SubmitRegistration.SubmitAppendsOneRow | app/api/submit-registration/route.ts:20-35 | Success, `{success:true}`, comes exactly when the request is complete and the append succeeds, and then that one spreadsheet gains exactly one row at its end. Every failure is 500 "Failed to submit registration" with nothing changed. |
| SubmitRegistration.Submit | app/api/submit-registration/route.ts:4-36 | The method issuing the one append yields `SubmitRun`'s response and spreadsheets. |
| Page.FindClub | app/page.tsx:187 | `find` returns the first club with the id, or none when no club has it. |
| Page.WithSheetId | app/page.tsx:104-106 | Only clubs with the matching id get the new sheet id; length, order, ids and names are unchanged. |
| Page.FindAfterWithSheetId | app/page.tsx:104-106 | After the update the club is found with the new sheet id; lookups of other ids are unaffected. |
| Page.WithSheetIdIdempotent | app/page.tsx:104-106 | Setting the same sheet id twice is the same as setting it once. |
| Page.ClientPayload | app/page.tsx:222-231 | The payload maps consent to "Yes"/"No" and an empty discord to "Not provided", and copies the other fields. |
| Page.PayloadRowMatchesMultiRow | app/page.tsx:224-231 | The single-sheet route stores the page's payload as the same six cells the multi-sheet route builds for the same form. |
| Page.UpdatedClubs | app/page.tsx:110-145 | `updatedClubs` keeps its length; entry i takes the answered sheet id if and only if request i succeeded. |
| Page.RequestSheets | app/page.tsx:110-145 | The request loop yields exactly `UpdatedClubs`, `Answers` and the loop's toasts: one per club, then one more per failure. |
| Page.Answers | app/page.tsx:111-136 | `results` is no longer than the clubs and is empty if and only if every request failed. |
| Page.AnswersSound | app/page.tsx:111-136 | Every entry of `results` is the answer of some successful request. |
| Page.AnswersComplete | app/page.tsx:111-136 | Every successful request's answer is in `results`. |
| Page.LoopToasts | app/page.tsx:115-143 | The loop shows at least one toast per club and at most two. |
| Page.SummaryTitle | app/page.tsx:150-176 | "Sheets updated!" if and only if results mix new and existing sheets. "All sheets created successfully!" if and only if all are new. "Sheets already exist!" if and only if all existed. "Unable to create sheets automatically" when there are none. |
| Page.SheetConfigured | app/page.tsx:205 | A sheet id counts as configured if and only if it is non-empty and does not start with "YOUR_". |
| Page.PlaceholderNotConfigured | app/page.tsx:205 | A placeholder id beginning "YOUR_" is never configured. |
| Page.ClubRegistration.constructor | app/page.tsx:60-76 | The page starts logged out, with the initial clubs, no club selected, an empty form, not submitting and no toasts. |
| Page.ClubRegistration.HandleAdminLogin | app/page.tsx:87-102 | Password "123" grants admin access and closes the login box. Any other password leaves both unchanged and shows a destructive toast. |
| Page.ClubRegistration.UpdateClubSheetId | app/page.tsx:104-106 | The clubs state becomes `WithSheetId` of the old one. |
| Page.ClubRegistration.CreateAllSheets | app/page.tsx:108-185 | One request per club, in order. The clubs are replaced by `UpdatedClubs` only when some request succeeded. The toasts are one per club, one more per failure, then the summary. |
| Page.ClubRegistration.HandleSubmit | app/page.tsx:189-262 | A request is sent if and only if a club is selected, found and has a configured sheet id; the request carries that id and the payload. The form resets only after an ok response. `isSubmitting` ends false once a club was selected. Exactly one toast is added, destructive unless the submission succeeded. |
| ClubAdmin.LowerChar | components/club-admin.tsx:28 | ASCII lowercasing leaves no upper-case letter and keeps whitespace whitespace. |
| ClubAdmin.Lower | components/club-admin.tsx:28 | `toLowerCase` keeps the length and maps each character. |
| ClubAdmin.DashRuns | components/club-admin.tsx:28 | The replacement never lengthens the name. |
| ClubAdmin.Dashed | components/club-admin.tsx:28 | The replacement is empty if and only if the name is. |
| ClubAdmin.Slug | components/club-admin.tsx:28 | The id has no whitespace, is no longer than the name, and is empty if and only if the name is. |
| ClubAdmin.DashRunsHasNoSpace | components/club-admin.tsx:28 | No whitespace survives `replace(/\s+/g, "-")`. |
| ClubAdmin.DashedKeepsWords | components/club-admin.tsx:28 | A name without whitespace keeps its characters. |
| ClubAdmin.DashedRun | components/club-admin.tsx:28 | A maximal whitespace run between two parts becomes exactly one '-', and the parts convert on their own. |
| ClubAdmin.AddClub | components/club-admin.tsx:26-32 | With both fields filled, one club with the slug id is appended at the end and the form is cleared. Otherwise nothing changes. |
| ClubAdmin.AddClubAppendsOne | components/club-admin.tsx:27-30 | Earlier clubs stay in place and the list grows by one. The new club's id is a non-empty slug, and an id already listed is repeated without a check. |
| ClubAdmin.RemoveClub | components/club-admin.tsx:34-36 | A club remains if and only if it was listed and its id differs. |
| ClubAdmin.RemoveClubConcat | components/club-admin.tsx:35 | Removal distributes over concatenation, so the kept clubs stay in order. |
| ClubAdmin.RemoveAbsentId | components/club-admin.tsx:35 | A list without that id is left unchanged. |
| ClubAdmin.RemoveClubIdempotent | components/club-admin.tsx:34-36 | Removing the same id twice is the same as removing it once. |

## Left out

- Google client construction and credentials (`getGoogleClients`, `app/lib/google.ts:7-21`): remote services are modelled as state, and only the private-key rewrite is kept.
- `ensureConfigSheet` is reduced to its `CONFIG_SPREADSHEET_ID` path (one `spreadsheets.get` that either succeeds or throws). Its legacy search-and-create fallback (`app/lib/google.ts:33-57`) is not modelled beyond the header constant `ConfigStore.ConfigHeader`, because it is quota-bound plumbing.
- Columns beyond E of the config sheet, and the Sheets service's trimming of trailing empty cells. A stored row is the sequence of cells `values.get` returns.
- The Sheets service's table detection for `values.append` (ranges A:E and A:F). Appending is modelled as adding rows after the last row.
- `new Date()`, the time zone and `toISOString`: the year, the month and the timestamp are parameters.
- JSON values that are not strings in request bodies (numbers or objects in `updates`, `sheetIds` or `data`). A `data` that is present but not an object is also left out. An absent `updates` is modelled the same way as one that is `false` or `null`.
- SubmitRegistrationMulti.Registration: `photoConsent` is a boolean. JavaScript truthiness of other JSON values is not modelled (no caller of this route appears in the app).
- SubmitRegistration.SubmitRun: a missing `sheetId` is treated as a throwing append (the Sheets service rejects an undefined spreadsheet id), so no row is appended.
- Workspace.Workspace.CreateFile: a create that throws, and one that answers without an id, are both modelled as adding no file.
- The escaping of `clubName` inside the Drive query string (`app/api/create-sheet/route.ts:29`) is the Drive service's parsing. Listing is modelled as exact name equality, and an undefined `clubName` is not modelled.
- Full Unicode `toLowerCase` and the Unicode members of `\s`: ASCII lowercasing and the six ASCII whitespace characters are modelled.
- Page.ClubRegistration.CreateAllSheets and HandleSubmit: only the toast titles and their destructive flags are modelled, not the descriptions. The outer catch of `createAllSheets` (`app/page.tsx:177-184`) is not modelled, because only toast calls sit outside the inner try.
- React's asynchronous state batching: state setters are modelled as immediate field updates, in program order.
- JSX rendering, layout, QR codes, icons and colour schemes of `app/page.tsx`, `components/club-admin.tsx`, `components/ui/toast.tsx` and `components/toast-provider.tsx`: presentation only.
- `app/api/_diag/google/route.ts`: a diagnostic probe of list, create and delete, with no logic of its own.
- Concurrency: racing upserts or concurrent creates of the same name. Each request is modelled as running alone.
- Console logging in the catch blocks.
- OkCount: its own contract only bounds the count by the number of results; that it counts exactly the ok results is stated by OkCountConcat, OkCountAt and OkCountBounds.
- Answers: its own contract gives the length bound and the empty case; that it holds exactly the successful answers is stated by AnswersSound and AnswersComplete.
