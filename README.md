# BNI Wedding Group member applications, modelled in Dafny

The system collects applications from BNI members who want to join the
wedding-services group. It exists in two versions, and the model keeps them
apart:

- **The tRPC variant.** A `submit` procedure validates an application and
  stores it with status `pending`, together with three uploaded files.
  Administrators can list the applications, open one, and approve or reject
  it. An admin dashboard filters the list and exports it as CSV. A small
  upload route stores files under generated keys.
- **The Express variant.** A browser form sends the application to
  `submitApplication`, which validates it again. The application then goes
  either as a row into a Google Sheet, or as a two-column Excel workbook
  uploaded to Google Drive. An upload route stores files on Google Drive,
  or on the local disk, served from `/static`.

Everything the services ask of the outside world becomes a parameter:
clock, random bytes, environment variables, and the outcome of each Google
API, storage or disk call (`Calls.Call`: it returned a value or it threw).
Each handler then becomes a function or method of those parameters. It
returns the requests it issued, in order, and the answer it sends.

Modules:

- Shared pieces:
  - `Wrappers`: Option, Result, JavaScript truthiness of optional strings.
  - `Calls`: outcomes of outside calls.
  - `Text`: ASCII case folding, substring search, number printing and
    parsing, hex, `split(c).pop()`, `path.extname`.
  - `Uri`: `encodeURIComponent` and its inverse over UTF-8.
- The tRPC variant:
  - `Schema`: the `members` and `memberFiles` tables.
  - `Forms`: the submitted body and the field rules shared by the three
    validators.
  - `MembersApi`: the `members` router, as a class over an in-memory store.
  - `AdminDashboard`: the search filter, CSV export and status buttons.
  - `TrpcUpload`: the tRPC upload route.
- The Express variant:
  - `Application`: the controller and `applicationSchema`.
  - `MemberForm`: the browser form's schema, defaults and choices.
  - `Cells`: cell texts shared by the Sheets and Excel serialisers.
  - `GoogleSheets`, `Excel`, `GoogleDrive`, `LocalStorage`: the services.
  - `UploadRoute`: the Express upload route.

## Model

| member | source | states |
|---|---|---|
| Schema.ParseStatus | schema.ts:63 | a text is a status exactly when it is `pending`, `approved` or `rejected`, and parsing gives back that name |
| Schema.StatusNameRoundTrip | schema.ts:63 | every status survives printing and parsing back |
| Schema.ParseYesNo | schema.ts:44 | `isGoldMember` accepts exactly `yes` and `no`, and `yes` maps to Yes |
| Forms.Failing | members.ts:66-94 | the reported fields are exactly those whose rule fails, listed as a subsequence of the schema's field order |
| Forms.ApplicationFieldsAreAllButFiles | backend/src/controllers/application.ts:7-26 | the schema's field list names every field but the file list |
| MembersApi.SubmitRulesAgree | members.ts:66-94 | the field-by-field rules hold exactly when the whole `submit` schema holds: four non-empty texts, services of at least 10 characters, years in 1..25, gold `yes`/`no`, exactly three files |
| MembersApi.SubmitIssues | members.ts:66-94 | a field is reported iff it breaks its rule, and nothing is reported iff the input parses |
| MembersApi.ParsedWhenNoIssues | members.ts:66-94 | an input with no issues has every required field present and exactly three files |
| MembersApi.NewMember | members.ts:97-117 | the inserted row has the new id, status `pending` (the column default), the submitted texts, and `now` as both timestamps |
| MembersApi.FileRows | members.ts:122-131 | one row per descriptor, each carrying the member id, a fresh increasing id and the descriptor's key, URL, name, size and type unchanged |
| MembersApi.FittingPrefix | members.ts:122-131 | the rows inserted before the first row the table refuses all fit the column bounds |
| MembersApi.Prefix | members.ts:134-137 | the notice text is cut to at most the given length and is a prefix of the original |
| MembersApi.FilesOfSound | members.ts:175-178 | the files returned for an id are exactly the stored rows carrying that id |
| MembersApi.FilesOfAppend | members.ts:175-178 | selecting a member's files distributes over appended rows |
| MembersApi.FilesOfAll | members.ts:122-131 | rows that all carry the id are selected whole |
| MembersApi.FilesOfNone | members.ts:175-178 | rows of other members contribute nothing |
| MembersApi.WithStatus | members.ts:196-200 | the status update keeps every key, sets the member's status, and leaves every other member unchanged |
| MembersApi.WithStatusIdempotent | members.ts:196-200 | setting the same status twice gives the same store as setting it once |
| MembersApi.WithStatusFits | members.ts:196-200 | a status update keeps every member within the table's bounds |
| MembersApi.MemberStore.constructor | schema.ts:32-84 | the store starts empty and valid |
| MembersApi.MemberStore.Submit | members.ts:66-142 | an invalid input is refused with its issues and changes nothing; otherwise one `pending` member is inserted under the next id, its rows are appended in order with that id, one owner notice is queued, and the answer is `{success, memberId}` with the inserted id |
| MembersApi.MemberStore.InsertMember | members.ts:97-117 | the member is stored under the next id, the counter advances, and ids stay unique and bounded |
| MembersApi.MemberStore.AttachFiles | members.ts:122-131 | the loop appends exactly the rows of `FileRows` until one does not fit, and reports whether all were attached |
| MembersApi.MemberStore.List | members.ts:148-156 | anonymous callers get "Please login" and non-admins "Unauthorized"; an admin gets every stored member exactly as stored, by increasing id |
| MembersApi.MemberStore.GetById | members.ts:161-181 | the same guard, then "Member not found" for an absent id, otherwise the member and exactly its files |
| MembersApi.MemberStore.UpdateStatus | members.ts:186-201 | the same guard; only the three status names are accepted; an admin's call sets that status and changes nothing else |
| MembersApi.SubmittedFilesAreOwn | members.ts:122-131 | after a submission, the new member's files are exactly the rows just attached |
| AdminDashboard.FilterMembers | AdminDashboard.tsx:120-127 | a member is kept iff the lower-cased term occurs in its lower-cased name, email or profession and the status filter is `all` or its status |
| AdminDashboard.FilterKeepsOrder | AdminDashboard.tsx:120-127 | the kept members are an order-preserving subsequence of the list |
| AdminDashboard.FilterNothing | AdminDashboard.tsx:120-127 | an empty term with `all` keeps the whole list |
| AdminDashboard.FilterIdempotent | AdminDashboard.tsx:120-127 | filtering twice is filtering once |
| AdminDashboard.FilterByStatus | AdminDashboard.tsx:125 | filtering on a status name keeps only members with that status |
| AdminDashboard.StatusLabel | AdminDashboard.tsx:165 | pending, approved and rejected map one-to-one to 待審核, 已批准 and 已拒絕 |
| AdminDashboard.CaseCount | AdminDashboard.tsx:164 | the case count is blank when absent or 0 (the `\|\|`), otherwise its decimal text |
| AdminDashboard.CsvCells | AdminDashboard.tsx:152-167 | every data row has exactly as many cells as the 14 headers |
| AdminDashboard.CsvColumns | AdminDashboard.tsx:135-167 | the ID column reads back to the member id; company is blank iff absent or empty; gold is 是 iff yes; status is 已批准 iff approved |
| AdminDashboard.Table | AdminDashboard.tsx:135-169 | the header row, then one 14-cell row per member, in order |
| AdminDashboard.ExportCsv | AdminDashboard.tsx:129-177 | an empty or missing list exports nothing and warns; otherwise the file is the BOM followed by the rendered table, under the dated name |
| AdminDashboard.FileNameIsDate | AdminDashboard.tsx:173 | the file name is `bni-members-<date>.csv`, the date part of the ISO time |
| AdminDashboard.CsvRoundTrip | AdminDashboard.tsx:169 | a table whose cells hold no double quote reads back from its rendering unchanged |
| AdminDashboard.ExportReadsBack | AdminDashboard.tsx:129-177 | an export without quotes in its cells reads back, after the BOM, as the header and the member rows |
| AdminDashboard.QuoteInCellCollides | AdminDashboard.tsx:169 | because embedded quotes are not doubled, two different tables can render to the same text |
| AdminDashboard.EnabledButtonChangesStatus | AdminDashboard.tsx:212-214 | an enabled button really changes the member's status and stamps the row |
| AdminDashboard.DisabledButtonIsNoOp | AdminDashboard.tsx:480-498 | the button of the current status is disabled, and its update would change nothing |
| TrpcUpload.FileKeyRoundTrip | upload.ts:27-29 | the key `member-files/<ts>-<suffix>.<ext>` reads back to the clock, the 10-character suffix and the last dot-segment of the name |
| TrpcUpload.KeysOfDistinctSuffixesDiffer | upload.ts:27-29 | two keys made in one millisecond with different suffixes differ |
| TrpcUpload.KeyKeepsExtension | upload.ts:27-29 | the key's extension is the original's text after its last dot, or the whole name when it has no dot |
| TrpcUpload.StatusCode | upload.ts:22-45 | 200 iff stored, 400 iff no file, 500 iff the storage call failed |
| TrpcUpload.ErrorText | upload.ts:22-24 | the error texts are "No file uploaded" and "File upload failed" |
| TrpcUpload.Upload | upload.ts:20-46 | no file: no request and a 400; otherwise one put under the key with the file's type, then the URL, name, size and type on success or a 500 on any failure |
| TrpcUpload.StoredAnswerDescribesFile | upload.ts:32-41 | a stored answer echoes the received file, carries the key the object was put under, and that key reads back to clock and suffix |
| Application.RulesAgree | backend/src/controllers/application.ts:7-26 | the field rules hold exactly when the whole `applicationSchema` holds; phone need only be present |
| Application.IssuesNameFailingFields | backend/src/controllers/application.ts:61-67 | the reported fields are exactly those that break their rule |
| Application.NoIssuesIffValid | backend/src/controllers/application.ts:31 | there are no issues iff the body parses |
| Application.InvalidEmailAndYearsReported | backend/src/controllers/application.ts:11-14 | a bad email and zero years are both reported |
| Application.StatusCode | backend/src/controllers/application.ts:38-72 | 400 iff invalid, 500 iff failure, 200 iff stored in a sheet or on Drive |
| Application.WorkbookIsXlsx | backend/src/controllers/application.ts:49-52 | the workbook's name always ends in `.xlsx`, so Drive gets the spreadsheet type |
| Application.SubmitApplication | backend/src/controllers/application.ts:28-74 | an invalid body gets 400 with its issues and calls nothing; with a sheet id the row is appended, with the sheet name left at the service's default `Sheet1` (the fallback title of an untitled first sheet); without, the workbook is built and uploaded; a failing call gives 500 |
| Application.ExactlyOnePath | backend/src/controllers/application.ts:35-57 | no storage call on invalid input, and never both the sheet and the Drive path |
| Application.SheetRecord | backend/src/controllers/application.ts:36-42 | the parsed body hands its texts to the Sheets service, with D&A, Admin Group, files and logo absent |
| Application.ControllerRowGaps | backend/src/controllers/application.ts:36-42 | every row the controller appends says "No" under D&A and leaves the file, logo and Admin Group cells blank |
| Application.AcceptedByTrpc | backend/src/controllers/application.ts:7-26 | a body accepted here, sent with three files, passes the tRPC schema |
| Application.TrpcAcceptsWhatThisRejects | backend/src/controllers/application.ts:21-23 | the converse fails: the tRPC schema takes any link text |
| MemberForm.PhonePatternHasNoLetters | frontend/src/pages/MemberForm.tsx:50 | a matching phone number is non-empty and holds no ASCII letter (`a`-`z`, `A`-`Z`); that it holds nothing outside the pattern's class is `MemberForm.PhoneMarkedIff` |
| MemberForm.RulesAgree | frontend/src/pages/MemberForm.tsx:45-64 | the field rules hold exactly when the whole form schema holds |
| MemberForm.IssuesNameFailingFields | frontend/src/pages/MemberForm.tsx:45-64 | the marked fields are exactly those that break their rule |
| MemberForm.NoIssuesIffValid | frontend/src/pages/MemberForm.tsx:45-64 | nothing is marked iff the form may be posted |
| MemberForm.PhoneOutsideClassMarked | frontend/src/pages/MemberForm.tsx:50 | a phone number holding any character other than a digit, white space, `-`, `+`, `(` or `)` is marked and blocks posting |
| MemberForm.PhoneMarkedIff | frontend/src/pages/MemberForm.tsx:50 | the phone field is marked iff it is absent, empty, or holds a character outside that class |
| MemberForm.FormImpliesController | frontend/src/pages/MemberForm.tsx:45-64 | everything the form lets through, the controller accepts |
| MemberForm.ControllerAcceptsWhatFormRejects | frontend/src/pages/MemberForm.tsx:50 | only the form checks the phone pattern |
| MemberForm.DefaultFieldOk | frontend/src/pages/MemberForm.tsx:80-83 | the `defaultValues` object breaks a field's rule exactly for the seven required texts it leaves empty |
| MemberForm.DefaultsMarked | frontend/src/pages/MemberForm.tsx:80-83 | validating the `defaultValues` object marks exactly those seven fields |
| MemberForm.YearOptionsMatchRule | frontend/src/pages/MemberForm.tsx:52 | a year is offered iff the schema accepts it (1..25) |
| MemberForm.CategoryRuleLooserThanList | frontend/src/pages/MemberForm.tsx:26-43 | 16 categories are listed and all pass, but any non-empty text passes too |
| Cells.GoldLabel | backend/src/services/googleSheets.ts:84 | gold is 是 iff yes, otherwise 否 |
| Cells.TriState | backend/src/services/googleSheets.ts:99 | Yes for yes, No for no, blank iff absent |
| Cells.YearsText | backend/src/services/googleSheets.ts:83 | the years cell is the number followed by " 年" |
| Cells.OptionalNumber | backend/src/services/googleSheets.ts:89 | blank iff absent, otherwise the number's text |
| Cells.FileUrls | backend/src/services/googleSheets.ts:95 | absent or empty file lists give a blank cell |
| Cells.SplitJoinedUrls | backend/src/services/googleSheets.ts:95 | URLs joined with "; " split back into the same URLs, in order |
| Cells.FileUrlsRoundTrip | backend/src/services/googleSheets.ts:95 | the files cell lists the files' URLs in input order |
| GoogleSheets.Row | backend/src/services/googleSheets.ts:75-102 | the data row has exactly 26 cells, as many as the headers |
| GoogleSheets.RowFlags | backend/src/services/googleSheets.ts:84-85 | gold is 是/否; D&A is Yes only for yes and No otherwise; Admin Group is tri-state |
| GoogleSheets.AbsentFieldsBlank | backend/src/services/googleSheets.ts:78-101 | every absent optional field leaves its column blank |
| GoogleSheets.SheetTitle | backend/src/services/googleSheets.ts:111-116 | the first sheet's title is used when it is non-empty, otherwise the given name |
| GoogleSheets.AppendToGoogleSheet | backend/src/services/googleSheets.ts:67-191 | a missing key fails before any request; otherwise the sheet list is read first, and unreadable metadata or a spreadsheet with no sheets fails before any range is read or written; headers are written only when the first row is unreadable or empty; then the row is appended; every later failure carries the service's prefix, and every written row has 26 cells |
| Excel.Values | backend/src/services/excel.ts:44-74 | one value per label: 29 |
| Excel.WorksheetData | backend/src/services/excel.ts:44-74 | 29 rows of two cells, the first `['欄位','內容']`, each starting with its label |
| Excel.NameRows | backend/src/services/excel.ts:47-49 | the full name is last name, space, first name |
| Excel.FlagRows | backend/src/services/excel.ts:55-57 | years as "<n> 年", gold as 是/否, D&A and Admin Group tri-state |
| Excel.AbsentFieldsBlank | backend/src/services/excel.ts:50-72 | every absent optional field leaves its value blank |
| Excel.AbsentDnADiffers | backend/src/services/excel.ts:57 | an absent D&A answer is "No" in the sheet but blank in the workbook |
| GoogleDrive.OctetStreamIffUnknown | backend/src/services/googleDrive.ts:194-209 | the type is `application/octet-stream` iff the extension is not in the table |
| GoogleDrive.TableTypeIsNotOctetStream | backend/src/services/googleDrive.ts:197-206 | no known extension maps to the fallback type |
| GoogleDrive.KnownExtension | backend/src/services/googleDrive.ts:194-209 | a name ending in `.ext` for a known lower-case `ext` gets that type |
| GoogleDrive.MimeTypeIgnoresCase | backend/src/services/googleDrive.ts:195 | names equal up to case get the same type |
| GoogleDrive.DetectedMimeType | backend/src/services/googleDrive.ts:90 | a non-empty caller-supplied type overrides the inferred one |
| GoogleDrive.IsSharedDrive | backend/src/services/googleDrive.ts:26-64 | true iff the folder has a drive id or the move capability; false on a not-found error; otherwise it is whatever the shared-drive lookup answers, false when that fails |
| GoogleDrive.SharedOnlyOnAnswer | backend/src/services/googleDrive.ts:26-64 | a folder counts as shared only on an answer from Drive; a not-found folder, or a failed folder lookup whose drive lookup also fails, is not shared |
| GoogleDrive.UploadToGoogleDrive | backend/src/services/googleDrive.ts:73-189 | refuses an unconfigured service and a non-shared target, where shared means a confirmed shared-drive id or `isSharedDrive` on the folder; a folder whose check fails without an answer is refused with the shared-drive message; issues the create request, with `parents` iff a folder is set and the detected type; answers the id, or the prefixed error |
| GoogleDrive.MakeFilePublic | backend/src/services/googleDrive.ts:215-260 | always asks for `anyone`/`reader` on the file, with shared-drive support iff a shared drive is configured or the file reports a drive id; it cannot fail |
| LocalStorage.StoredNameRoundTrip | backend/src/services/localStorage.ts:28-37 | the stored name reads back to the clock, the eight random bytes and the lower-cased extension |
| LocalStorage.StoredNamesDiffer | backend/src/services/localStorage.ts:28-37 | two names of one millisecond coincide only for the same random bytes and extension |
| LocalStorage.StoredNameKeepsExtension | backend/src/services/localStorage.ts:33-36 | the stored name's extension is the original's, lower-cased; "" when it has none |
| LocalStorage.DateDirRoundTrip | backend/src/services/localStorage.ts:55-59 | the date directory reads back to the year, the 1-based month and the day, both padded to two digits |
| LocalStorage.BaseUrl | backend/src/services/localStorage.ts:70 | the configured base URL when non-empty, otherwise `http://localhost:6137` |
| LocalStorage.UploadToLocalStorage | backend/src/services/localStorage.ts:45-85 | fails iff the write throws, passing the error on; otherwise the key is `uploads/<date>/<name>`, the URL the base, `/static/uploads/<date>/` and the encoded name, and the original name is kept |
| LocalStorage.UrlServesKey | backend/src/services/localStorage.ts:69-73 | the URL's last segment decodes to the stored name, and with a plain extension the URL is base + `/static/` + key |
| UploadRoute.UsesDrive | backend/src/routes/upload.ts:30-32 | Drive is used iff `STORAGE_TYPE` is exactly `google` |
| UploadRoute.DriveName | backend/src/routes/upload.ts:35 | the Drive name ends with the original name after the clock |
| UploadRoute.DriveUrlRoundTrip | backend/src/routes/upload.ts:52 | the view link reads back to the file id |
| UploadRoute.StatusCode | backend/src/routes/upload.ts:22-27 | 200 iff uploaded, 400 iff no file, 500 iff a server error |
| UploadRoute.ErrorText | backend/src/routes/upload.ts:22-27 | "No file uploaded", or the server error's message |
| UploadRoute.Upload | backend/src/routes/upload.ts:20-102 | no file: nothing called and 400; local storage: one local write; Drive success: upload then make public, answering the id and view link; Drive failure: upload then one local write |
| UploadRoute.EachStoreTriedOnce | backend/src/routes/upload.ts:30-94 | Drive is tried once iff selected; the disk is written once iff a file came and Drive was not selected or failed |
| UploadRoute.AnswerDescribesFile | backend/src/routes/upload.ts:54-61 | a success echoes name, size and type; its Drive link decodes to its key, or its local key is `uploads/<date>/<stored name>` |
| UploadRoute.FailsOnlyOnLocalWrite | backend/src/routes/upload.ts:95-101 | the answer is 500 iff a needed local write threw, with the thrown message or "File upload failed" |
| Text.Lower | AdminDashboard.tsx:122-124 | lower-casing keeps the length and folds each letter |
| Text.LowerIdempotent | AdminDashboard.tsx:122-124 | lower-casing twice is lower-casing once |
| Text.Contains | AdminDashboard.tsx:122-124 | `includes` holds iff the term occurs at some position |
| Text.NatToStringRoundTrip | backend/src/services/localStorage.ts:36 | a printed number parses back to itself |
| Text.Pad2RoundTrip | backend/src/services/localStorage.ts:57-58 | a zero-padded number parses back to itself |
| Text.HexRoundTrip | backend/src/services/localStorage.ts:31 | `toString('hex')` parses back to the bytes |
| Text.LastSegment | upload.ts:28 | `split(c).pop()` is the longest suffix without `c`, preceded by `c` when shorter than the text |
| Text.LowerLastSegment | backend/src/services/googleDrive.ts:195 | lower-casing commutes with taking the text after the last dot |
| Text.Extname | backend/src/services/localStorage.ts:33 | `path.extname` is empty or a dot followed by neither dot nor slash |
| Uri.Utf8RoundTrip | backend/src/services/localStorage.ts:73 | UTF-8 encoding decodes back to the text |
| Uri.EncodeURIComponent | backend/src/services/localStorage.ts:73 | the encoding holds only unreserved characters and `%XX` escapes |
| Uri.EncodeUnreservedUnchanged | backend/src/services/localStorage.ts:73 | a text of unreserved characters encodes to itself |
| Uri.EncodeRoundTrip | backend/src/services/localStorage.ts:73 | decoding the encoding gives back the text |

## Left out

- Case folding is ASCII-only (`Text.Lower`). JavaScript's `toLowerCase` also
  folds non-ASCII letters, so a search term such as "É" matches more in the
  browser than here.
- Numbers are integers. JavaScript's floating-point values, `NaN` and
  fractional years are not modelled, and neither are 32-bit wrap-around and
  the database's integer overflow: ids are checked against the `int` column
  bound instead.
- Strings are sequences of code points. UTF-16 surrogate pairs, and
  `encodeURIComponent`'s error on a lone surrogate, are not modelled.
- `Uri.DecodeURIComponent` rejects malformed escapes, but it does not reject
  overlong UTF-8 forms, which JavaScript refuses.
- The MIME table is a finite map. JavaScript's object lookup would also find
  inherited keys such as `constructor`.
- Time is a parameter: `Date.now`, `new Date()`, `toLocaleString`,
  `toISOString`, and the date parts of the local directory name. The CSV
  time cells are formatted by a function parameter.
- Randomness is a parameter: `crypto.randomBytes` and `nanoid`.
  `TrpcUpload.FileKeyRoundTrip` assumes the suffix is ten characters of
  nanoid's alphabet.
- The database, and the order in which it returns rows.
  `MembersApi.MemberStore.List` returns members by increasing id.
- Adapter failures:
  - A failed member insert is modelled only as the row not fitting the
    table's bounds; a failed file insert likewise stops the loop.
  - The database error message is not modelled.
- `analyzeCategory` (members.ts:12-60) is not modelled: it calls a language
  model and parses its JSON.
- `notifyOwner` is modelled as one queued notice: its delivery and failure
  are not.
- `MembersApi.MemberStore.UpdateStatus` on an absent id answers success and
  changes nothing, as the code does (members.ts:196-200). It does not answer
  "not found".
- The upload size limit of multer (backend/src/routes/upload.ts:9-14) is
  enforced by the library and is not modelled.
- `path.join` normalisation is not modelled: `LocalStorage.StoredFile.filePath`
  is the directory, the date and the name joined with "/".
- `ensureUploadDir`, the directory creation and the file write are folded
  into one outcome parameter. `deleteLocalFile` is not modelled: nothing in
  the modelled handlers calls it.
- `createGoogleSheet`, `getSheetsClient` and `getDriveClient` are not
  modelled beyond the private-key check. The XLSX encoding in
  `createExcelFromData` is not modelled either: the model stops at the
  worksheet's rows.
- `uploadToGoogleDrive` computes `driveId` but never uses it; the model
  omits it.
- The catch at backend/src/services/googleDrive.ts:136-142, which forces
  shared-drive mode when the folder check throws, cannot run: `isSharedDrive`
  answers false on every failure and never throws. The model follows the
  code, so a folder whose check fails is refused.
- The route's own catch around `makeFilePublic`
  (backend/src/routes/upload.ts:45-49) cannot be reached, because that
  function catches its own failures. The model therefore has no failure
  outcome for it.
- `fileExtension` in backend/src/routes/upload.ts:34 is computed but never
  used, and is not modelled.
- Thrown values that are not `Error` objects are modelled only through their
  fallback message (`Calls.MessageOr`).
- `GoogleSheets.AppendToGoogleSheet` and `Excel.WorksheetData` each take
  their own input type. The controller hands the Sheets service the record
  in `Application.SheetRecord`. It passes the Excel service an
  `englishName`, while that service reads `englishFirstName` and
  `englishLastName`: that mismatch is not repaired, and the Excel path of
  `Application.SubmitApplication` records only the upload's name and outcome.
- The CSV export is not RFC 4180 compliant (section 2, rule 7): embedded
  quotes are not doubled. The model renders what the code writes.
  `AdminDashboard.CsvRoundTrip` therefore holds only for cells without a
  double quote, and `AdminDashboard.QuoteInCellCollides` shows the collision.
- MemberForm.DefaultsMarked: holds for the `defaultValues` object
  (frontend/src/pages/MemberForm.tsx:80-83). The untouched browser form
  sends `NaN` for `pastCasesCount`, because the input is registered with
  `valueAsNumber` (line 327), and `z.number().optional()` (line 56) rejects
  it. Number inputs are modelled as integers or absent, so that extra mark
  is not captured.
- Email and URL validity are the abstract predicates of `Forms.Grammars`.
  The zod grammars are not modelled.
- The React state, JSX rendering, toasts, navigation and the form's
  `onSubmit` request are not modelled.
