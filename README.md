# CheckCells core, modelled in Dafny

CheckCells records and reviews semen-analysis tests. A React frontend lists tests, edits their comments, records and plays videos, and starts new tests. A small Express server stores uploaded recordings on S3 or on local disk and lists them. This project models the deterministic decisions inside that code and proves what they promise. The network, the camera, the filesystem, the clock and randomness are inputs.

The model covers:

- **Test ids** (`Api`, `TestDetails`). The `TEST-`/`TST-` prefix and leading zeros are stripped, with a `"1"` fallback. `fetchTestDetails` has a variant rule. Display ids are `TEST-` plus the id left-padded with zeros to six characters.
- **Requests and replies** (`Api`). The `createTest` payload with its defaults, and how responses become test records. `fetchTestComments` never fails. `updateTestComments` reports a missing test with its own message.
- **The test-details page** (`TestDetails.DetailsView`). A class holding the comments being edited, the video carousel with wrap-around, and play/pause.
- **Storage keys and paths.**
  - `StorageIds`: id sanitisation.
  - `S3Service`: the browser's S3 keys, listing filter and object URLs.
  - `UploadMiddleware`: the server's multer configuration (type filter, key and local file names, storage choice, size limit, error handler).
  - `UploadRoutes`: the server's upload answers and the sorted directory listing.
- **Encoders** (`SimpleS3`). The random object name is the lowercase hexadecimal form of 16 bytes (base 16 of section 8 of RFC 4648). It is decodable and therefore injective.
- **Configuration** (`ClientS3Config`, `ServerS3Config`). The defaults and `isS3Configured`.
- **Lists and UI state.**
  - `TableComponent`: the table's search and type filter.
  - `Sidebar`: item clicks and the option checklist.
  - `NewTestPage`: the new-test form (`NewTestForm` class).
  - `Dashboard`: the calendar week and navigation (`GetWeekDates` loop, `WeekNavigator` class) and the recent-tests slice.
  - `Navbar`: the title and subtitle lines.
- **Uploads from the browser** (`UploadService`). The multipart form, the progress percentage, how the request settles, and the health check.

Some JavaScript and Node behaviour is written out character by character:

- In `JsStrings`: `startsWith`, `indexOf`, first-occurrence `replace`, `/^0+/`, `padStart`, `trim`, `toLowerCase`, `join`, `String(n)`, `parseInt` and `path.extname`.
- In `JsArrays`: `filter` and the default `sort`.

In `Http`, `response.ok` is the 2xx "Successful" class of section 15.3 of RFC 9110.

Dates are day numbers counted from 1 January 1970, a Thursday. Index 3 of the calendar week is its Thursday. The comment at src/components/Dashboard.tsx:58 calls it "Wednesday"; the model follows the code, and `Dashboard.DisplayDateIsThursday` states it.

## Model

| member | source | states |
|---|---|---|
| Api.ZeroStripped | src/services/api.ts:161-164 | A stripped id is never empty and never starts with '0'. |
| Api.StripIdPrefix | src/services/api.ts:161-164 | After a present prefix: the remainder without its leading zeros, or "1" when only zeros remain. The result is non-empty and does not start with '0'. |
| Api.IdPrefix | src/services/api.ts:159-165 | "TEST-" takes precedence over "TST-"; an id with neither has no prefix. |
| Api.NormalizeTestId | src/services/api.ts:201-208 | Prefixed ids are zero-stripped with the "1" fallback; ids with neither prefix pass through unchanged. |
| Api.FetchDetailsId | src/services/api.ts:63 | `fetchTestDetails`'s id: with no "TEST-" in the id, the id without its leading zeros; otherwise its first "TEST-" removed, then the leading zeros. |
| Api.FetchDetailsIdAgrees | src/services/api.ts:63 | For "TEST-" ids whose remainder is not all zeros, the `fetchTestDetails` rule agrees with the normalisation. |
| Api.FetchDetailsIdAllZeros | src/services/api.ts:63 | "TEST-" followed only by zeros gives "" under `fetchTestDetails`, but "1" under the normalisation. |
| Api.FetchDetailsIdKeepsTst | src/services/api.ts:63 | `fetchTestDetails` leaves a "TST-" id untouched, unlike the normalisation. |
| Api.TstIdChanges | src/services/api.ts:163-164 | The comment requests never use a "TST-" id unchanged. |
| Api.FetchDetailsIdInside | src/services/api.ts:63 | `fetchTestDetails` removes a "TEST-" in the middle of the id, which the normalisation leaves alone. |
| Api.DisplayId | src/services/api.ts:131 | "TEST-" followed by the id, left-padded with zeros to at least six characters and never truncated. |
| Api.DisplayIdRoundTrip | src/services/api.ts:131 | Normalising the display id of an id that does not start with '0' gives back that id. |
| Api.NumOr0 | src/services/api.ts:100-102 | A missing number becomes 0. |
| Api.ListOrEmpty | src/services/api.ts:106 | Missing video URLs become []. |
| Api.CreateTestPayload | src/services/api.ts:95-107 | name and testId are the given value or "", the three numbers the given value or 0, videoUrl the given list or []. A truthy dateOfTest, testType or status is kept; otherwise it becomes today, "All parameters" or "Completed". |
| Api.CreateTestPayloadIdempotent | src/services/api.ts:95-107 | Applying the defaults to an already defaulted payload changes nothing. |
| Api.FetchedTestData | src/services/api.ts:43-52 | diagnosticianName is the record's name. A truthy testId, dateOfTest, testType or status is kept; otherwise it becomes the record id, today, "All parameters" or "Completed". The three measurements are copied and there is no videoUrl. |
| Api.CreatedTestData | src/services/api.ts:129-139 | The same record as the list conversion, except two fields. testId is the reply's when truthy, else "TEST-" plus the id padded to six digits, so never empty. videoUrl is the reply's list or []. |
| Api.CreatedTestIdRoundTrip | src/services/api.ts:131 | Without a testId, the padded fallback id normalises back to the record id. |
| Api.CommentsUrl | src/services/api.ts:213-223 | The comments URL is "<API base>/parameters/" followed by the normalised id, and nothing else. |
| Api.FetchTestComments | src/services/api.ts:213-245 | The result is non-empty iff the reply is 2xx with comments, and then it is those comments. Any other outcome gives "". |
| Api.UpdateTestComments | src/services/api.ts:176-185 | Passes iff the reply is 2xx. A 404 gives the not-found message, other statuses give the status message, and a network error gives its own message. |
| Api.NotFoundIsDistinct | src/services/api.ts:178-184 | The not-found message differs from the message every other failed status gets. |
| JsStrings.ReplaceFirst | src/services/api.ts:63 | `replace` with a string pattern: unchanged when the pattern does not occur, and a leading occurrence is replaced. |
| JsStrings.StripLeadingZeros | src/services/api.ts:162 | `replace(/^0+/, "")`: removes exactly the leading zeros. The result is "" iff the input is all zeros, and otherwise does not start with '0'. |
| JsStrings.PadStart | src/services/api.ts:131 | `padStart(6, "0")`: at least the width, never truncated, with the input at the end and fill characters before it. |
| JsStrings.ParseIntOfIntToString | src/services/uploadService.ts:88 | `parseInt(String(n))` gives back n, for negative n as well. |
| JsStrings.ExtName | server/middleware/upload.js:36 | The extension is "", or a '.' followed by no other '.' that ends the name. |
| JsStrings.ToLowerIdempotent | src/components/table/TableComponent.tsx:22-23 | Lower-casing twice is lower-casing once. |
| JsStrings.TrimEmptyIffBlank | src/components/Newtestpage.tsx:27 | `trim()` gives "" iff the string is all white space. |
| JsStrings.JoinContainsPart | src/components/Navbar.tsx:45 | `join` keeps every part as a substring of the result. |
| TestDetails.NextIndex | src/components/TestDetails.tsx:239-242 | Next moves to (i+1) mod n and stays within [0, n). |
| TestDetails.PreviousIndex | src/components/TestDetails.tsx:234-237 | Previous moves to (i-1+n) mod n and stays within [0, n). |
| TestDetails.PreviousUndoesNext | src/components/TestDetails.tsx:234-242 | Previous after next restores the index. |
| TestDetails.NextUndoesPrevious | src/components/TestDetails.tsx:234-242 | Next after previous restores the index. |
| TestDetails.DetailsUrl | src/components/TestDetails.tsx:73-89 | The page's literal parameters URL followed by its own id rule is the URL the API layer uses for the comments; an id with no prefix is used as it is. |
| TestDetails.PageApiIdAgrees | src/components/TestDetails.tsx:76-80 | The page's own id rule gives the same id as the API layer's normalisation, for every id. |
| TestDetails.PageParametersUrlIsApis | src/components/TestDetails.tsx:88-89 | The page's literal parameters URL is the API base followed by "/parameters/". |
| TestDetails.VideosUrl | src/components/TestDetails.tsx:131-134 | The videos URL is the upload server's "/api/upload/videos/" endpoint followed by the raw test id, and nothing else. |
| TestDetails.DetailsView.constructor | src/components/TestDetails.tsx:25-45 | Starts with empty comments, no videos, index 0, not playing and not editing. |
| TestDetails.DetailsView.LoadParameters | src/components/TestDetails.tsx:91-98 | A 2xx reply replaces volume, days and dilution. Otherwise nothing changes. |
| TestDetails.DetailsView.LoadVideos | src/components/TestDetails.tsx:150-154 | A non-empty list of URLs replaces the videos. An empty one leaves them as they were. |
| TestDetails.DetailsView.LoadComments | src/components/TestDetails.tsx:179-183 | Comments and the edit copy both become the fetched text, or the default text when it is empty. |
| TestDetails.DetailsView.HandleEditClick | src/components/TestDetails.tsx:208-211 | Enters edit mode with the edit copy equal to the comments. |
| TestDetails.DetailsView.HandleSaveComments | src/components/TestDetails.tsx:213-227 | A successful save commits the edit copy and leaves edit mode. A failed one alerts and keeps the comments and edit mode. |
| TestDetails.DetailsView.HandleCancelEdit | src/components/TestDetails.tsx:229-232 | Discards the edit copy and leaves edit mode; the comments are unchanged. |
| TestDetails.DetailsView.HandlePreviousVideo | src/components/TestDetails.tsx:234-237 | Index becomes the previous one with wrap-around; playback stops; the index stays in range. |
| TestDetails.DetailsView.HandleNextVideo | src/components/TestDetails.tsx:239-242 | Index becomes the next one with wrap-around; playback stops; the index stays in range. |
| TestDetails.DetailsView.HandleVideoClick | src/components/TestDetails.tsx:270-273 | Selects the clicked video and stops playback. |
| TestDetails.DetailsView.TogglePlayPause | src/components/TestDetails.tsx:244-253 | Flips playing only while a video element is mounted. |
| StorageIds.Sanitize | src/services/s3Service.ts:87 | Same length; characters in [A-Za-z0-9-] are kept and every other becomes '_'; no '/' or '.' remains. |
| StorageIds.SanitizeIdempotent | src/services/s3Service.ts:87 | Sanitising twice is sanitising once. |
| S3Service.ListingPrefix | src/services/s3Service.ts:109-110 | The listing prefix is "videos/", the sanitised id, then "/". |
| S3Service.S3FileName | src/services/s3Service.ts:82-89 | The key is the listing prefix followed by "recording_<n>_<timestamp>.webm". |
| S3Service.GeneratedKeyIsListed | src/services/s3Service.ts:88 | Every generated key starts with the test's listing prefix and passes the listing filter. |
| S3Service.ObjectUrl | src/services/s3Service.ts:62 | The URL is "https://<bucket>.s3.", the region, then ".amazonaws.com/<key>". |
| S3Service.UploadVideoToS3 | src/services/s3Service.ts:28-74 | Without a configuration it rejects with the not-configured message. Otherwise it returns the object URL, or rejects with "Failed to upload video to S3: " followed by the thrown Error's message, or "Unknown error" for any other thrown value. |
| S3Service.VideoUrls | src/services/s3Service.ts:127-136 | One URL per kept key, in listing order. A key is kept iff it ends in .webm, .mp4 or .mov. |
| S3Service.ListVideosFromS3 | src/services/s3Service.ts:96-152 | Without a configuration it rejects. An absent or empty listing gives []. Otherwise it gives the kept keys' URLs. A failed call rejects with "Failed to list videos from S3: " followed by the thrown Error's message, or "Unknown error". |
| S3Service.UploadedRecordingIsListed | src/services/s3Service.ts:62-136 | A recording uploaded under a generated key is listed under the same URL the upload returned. |
| ClientS3Config.Config | src/config/s3Config.ts:8-15 | Each setting is its VITE_AWS_ variable when non-empty. Otherwise region is "us-east-1" and the others are "". |
| ClientS3Config.IsS3Configured | src/config/s3Config.ts:18-24 | True iff bucket, access key id and secret are all non-empty. |
| ClientS3Config.RegionIrrelevant | src/config/s3Config.ts:18-24 | The region never affects the result. |
| ClientS3Config.EmptyEnvDefaults | src/config/s3Config.ts:8-15 | With no variables: region "us-east-1", the rest "", and not configured. |
| ClientS3Config.RequiredVariable | src/config/s3Config.ts:20-22 | Emptying or removing any of the three required variables makes the check fail. |
| ServerS3Config.Config | server/config/s3Config.js:6-13 | Each setting is its AWS_ variable when non-empty. Otherwise region is "us-east-1" and the others are "". |
| ServerS3Config.IsS3Configured | server/config/s3Config.js:22-28 | True iff bucket, access key id and secret are all non-empty. |
| ServerS3Config.RegionIrrelevant | server/config/s3Config.js:22-28 | The region never affects the result. |
| ServerS3Config.EmptyEnvDefaults | server/config/s3Config.js:6-13 | With no variables: region "us-east-1", the rest "", and not configured. |
| ServerS3Config.RequiredVariable | server/config/s3Config.js:24-26 | Emptying or removing any of the three required variables makes the check fail. |
| S3Settings.EnvOr | src/config/s3Config.ts:9-13 | `process.env.X \|\| fallback`: the variable when set and non-empty, else the fallback. |
| UploadMiddleware.FileFilter | server/middleware/upload.js:8-28 | Accepts iff the mimetype is one of the six video types; otherwise rejects with the invalid-type message. |
| UploadMiddleware.TestFolder | server/middleware/upload.js:32-35 | The folder is the sanitised testId, or "unknown" when testId is missing or empty; it contains no '/'. |
| UploadMiddleware.RecordingNumber | server/middleware/upload.js:33 | The recording number is the sent field when truthy, else "1"; it is never empty. |
| UploadMiddleware.GenerateFileName | server/middleware/upload.js:31-39 | The S3 key is "videos/<folder>/recording_<n>_" followed by the timestamp and the original extension, possibly empty. |
| UploadMiddleware.LocalDestination | server/middleware/upload.js:43-52 | The local directory is "uploads/videos/" followed by the test folder. |
| UploadMiddleware.RecordingName | server/middleware/upload.js:38-57 | The recording name is "recording_<n>_", the decimal timestamp, then the extension. |
| UploadMiddleware.RecordingTimestamp | server/middleware/upload.js:38-57 | The timestamp in a recording name parses back to the upload time. |
| UploadMiddleware.LocalFileName | server/middleware/upload.js:53-60 | The local file name is the recording name with the original extension, or ".webm" when there is none. |
| UploadMiddleware.KeyParts | server/middleware/upload.js:38 | The S3 key is "videos/<folder>/" followed by the recording name. |
| UploadMiddleware.LocalNameParts | server/middleware/upload.js:38-57 | For a file with an extension, the local file name is the recording name the S3 key ends in. |
| UploadMiddleware.LocalPathMatchesS3Key | server/middleware/upload.js:38-57 | For a file with an extension, the local path is "uploads/" followed by the S3 key the S3 storage would use. |
| UploadMiddleware.ChooseStorage | server/middleware/upload.js:83 | S3 storage iff the server configuration is complete, local disk otherwise. |
| UploadMiddleware.FileSizeLimit | server/middleware/upload.js:90 | The limit is the parsed MAX_FILE_SIZE, or 524288000 when it is unset, not a number or 0. It is never 0. |
| UploadMiddleware.FileSizeLimitOf | server/middleware/upload.js:90 | Setting MAX_FILE_SIZE to the decimal form of a non-zero n gives limit n. |
| UploadMiddleware.LimitMessageMisreports | server/middleware/upload.js:101-103 | With MAX_FILE_SIZE "0" the message quotes 0 bytes while the limit is 524288000. |
| UploadMiddleware.AsWrittenLimitText | server/middleware/upload.js:101-103 | As written: the quoted size is MAX_FILE_SIZE when set and non-empty, else exactly "524288000", which parses to the default limit. |
| UploadMiddleware.CorrectedLimitText | server/middleware/upload.js:90-103 | The corrected quoted size parses to the enforced limit. |
| UploadMiddleware.HandleUploadError | server/middleware/upload.js:95-122 | No error passes the request on. LIMIT_FILE_SIZE gives 400 "File too large", other multer errors 400 "Upload error", other errors 400 "Invalid file". |
| UploadMiddleware.RejectedTypeIsInvalidFile | server/middleware/upload.js:21-27 | A file rejected by the type filter is answered with 400 "Invalid file" and the filter's message. |
| UploadRoutes.ServerBase | server/routes/upload.js:38 | The base URL is "http://localhost:" followed by PORT when set and non-empty; otherwise it is "http://localhost:3001". |
| UploadRoutes.SingleFileRecord | server/routes/upload.js:20-41 | With a location: storage "s3" and that URL. Without: storage "local" and the local URL of the key or of "videos/<folder>/<filename>". The other fields are copied. |
| UploadRoutes.SingleUpload | server/routes/upload.js:9-59 | No file gives 400 "No file uploaded"; otherwise 200 with exactly one record. |
| UploadRoutes.UploadsFolderPath | server/routes/upload.js:38 | The local URL is the base followed by "/uploads/videos/<folder>/<name>". |
| UploadRoutes.SingleLocalUrlIsStoredPath | server/routes/upload.js:24-38 | When the storage saw the same test folder as the route, a locally stored single upload's URL is the base, "/", the storage's directory and the file name. |
| UploadRoutes.SingleLocalUrlMissesStoredFile | server/routes/upload.js:24-38 | When the storage saw another test folder than the route, the URL is not the stored file's path. |
| UploadRoutes.SingleUploadAsSentMissesFile | server/routes/upload.js:20-38 | As written: for a test id whose folder is not "unknown", the single local upload's URL misses the stored file. |
| UploadRoutes.SingleUploadCorrectedFindsFile | server/routes/upload.js:20-38 | With the corrected form, the single local upload's URL is the stored file's path. |
| UploadRoutes.MultiFileRecord | server/routes/upload.js:76-83 | As written: a local file's URL is "/uploads/<filename>". |
| UploadRoutes.MultiLocalUrlMissesFolder | server/routes/upload.js:81 | That URL is never the path where the local storage put the file. |
| UploadRoutes.MultiFileRecordCorrected | server/routes/upload.js:76-83 | The as-written record with one change: a local file's URL is "/uploads/videos/<folder>/<filename>"; every other field, and an S3 file's URL, is the same. |
| UploadRoutes.MultiCorrectedUrlIsStoredPath | server/routes/upload.js:81 | When the storage saw the same test folder as the route, the corrected URL is the stored file's place on disk. |
| UploadRoutes.MultiUploadCorrectedFindsFiles | server/routes/upload.js:76-83 | With both corrections, every locally stored file of a multiple upload is answered with its place on disk. |
| UploadRoutes.MultiUpload | server/routes/upload.js:62-105 | No files gives 400 "No files uploaded". Otherwise 200 with one record per file, in order, and the count in the message. The 10-file cap of line 65 is enforced by multer before this handler runs. |
| UploadRoutes.ListVideos | server/routes/upload.js:117-164 | A missing folder gives no videos. Otherwise the video files sorted, each with URL "<base>/uploads/videos/<folder>/<file>" and path "videos/<folder>/<file>", with count equal to their number. |
| UploadRoutes.ListedNamesSortedVideoFiles | server/routes/upload.js:135-140 | The listed names are in string order and are a permutation of the folder's video files. |
| UploadRoutes.LexLeAfterPrefix | server/routes/upload.js:140 | A shared prefix does not change how two names sort. |
| UploadRoutes.TenSortsBeforeTwo | server/routes/upload.js:140 | "recording_10…" sorts before "recording_2…", against the comment's claim of ordering by recording number. |
| UploadRoutes.UpperCaseExtensionKept | server/routes/upload.js:137-138 | ".WEBM" passes the filter because the extension is lower-cased first. |
| UploadRoutes.StoredRecordingExtension | server/routes/upload.js:137 | A stored recording's extension is the original one, or ".webm" when there was none. |
| UploadRoutes.StoredRecordingIsListed | server/routes/upload.js:135-139 | A recording stored with a video extension, in any case, or with none, shows up in the listing. |
| JsArrays.SortStringsCorrect | server/routes/upload.js:140 | The default sort yields an ordered permutation of its input. |
| SimpleS3.HexDigit | src/services/simple_s3.ts:22 | Digits below 16 become characters of 0-9a-f. |
| SimpleS3.HexValue | src/services/simple_s3.ts:22 | Reading a hex character back gives a digit whose character it is. |
| SimpleS3.HexValueOfDigit | src/services/simple_s3.ts:22 | Reading a digit's character gives back that digit. |
| SimpleS3.ByteToString16 | src/services/simple_s3.ts:22 | `byte.toString(16)` has one or two lowercase hex characters. |
| SimpleS3.ByteToHex | src/services/simple_s3.ts:22 | After padding: exactly two characters, the high and low nibble; bytes below 16 start with '0'. |
| SimpleS3.ObjectName | src/services/simple_s3.ts:21-23 | The name has two lowercase hex characters per byte. |
| SimpleS3.DecodeObjectName | src/services/simple_s3.ts:21-23 | Reading the name two characters at a time recovers the bytes in order. |
| SimpleS3.ObjectNameInjective | src/services/simple_s3.ts:21-23 | Different byte arrays give different names. |
| SimpleS3.SixteenByteName | src/services/simple_s3.ts:19-23 | Sixteen bytes give a 32-character lowercase hex name. |
| TableComponent.FilteredData | src/components/table/TableComponent.tsx:20-26 | A row is shown iff it matches the search and the type. Shown rows are input rows. |
| TableComponent.FilteredKeepsOrder | src/components/table/TableComponent.tsx:20 | The shown rows keep their input order. |
| TableComponent.EmptyFilterShowsAll | src/components/table/TableComponent.tsx:21-24 | An empty search with no type selected shows every row. |
| TableComponent.SearchIgnoresCase | src/components/table/TableComponent.tsx:22-23 | Lower-casing the search does not change the result. |
| TableComponent.TypeMatchIsExact | src/components/table/TableComponent.tsx:24 | The type comparison is case-sensitive. |
| TableComponent.TypeFilterOnlyNarrows | src/components/table/TableComponent.tsx:24-25 | Selecting a type keeps a subsequence of the rows shown without one. |
| Sidebar.NavigationTarget | src/components/Sidebar.tsx:125-129 | "Dashboard" navigates to "/", "All Tests" to "/all-tests", "New Semen Test" to "/new-test"; no other item navigates. |
| Sidebar.Toggled | src/components/Sidebar.tsx:135-141 | A selected option is removed (every copy); the others are kept, in their order. An unselected option is appended at the end. |
| Sidebar.ToggledTwiceRestores | src/components/Sidebar.tsx:136-140 | Toggling an unselected option twice restores the list. |
| Sidebar.ToggledKeepsNoDuplicates | src/components/Sidebar.tsx:137-139 | A duplicate-free selection stays duplicate-free. |
| Sidebar.SidebarView.constructor | src/components/Sidebar.tsx:118-120 | Nothing active, dropdown closed, nothing selected, checklist hidden. |
| Sidebar.SidebarView.HandleItemClick | src/components/Sidebar.tsx:123-133 | The item becomes active. "New Semen Test" flips the dropdown, other items close it. The checklist shows iff that flip opened it. Returns the route. |
| Sidebar.SidebarView.ToggleOption | src/components/Sidebar.tsx:135-141 | The shared selection is toggled and stays duplicate-free. |
| Navbar.GetTitle | src/components/Navbar.tsx:27-32 | "/" is titled "Dashboard", "/new-test" "New Test", and every other path "All Tests". |
| Navbar.TotalTestsLine | src/components/Navbar.tsx:38-42 | Shown only on "/". The number after its prefix parses back to the total. |
| Navbar.SelectedLine | src/components/Navbar.tsx:43-47 | Shown only on "/new-test" with a non-empty selection; the options joined by ", ". |
| Navbar.SelectedLineNamesEveryOption | src/components/Navbar.tsx:45 | Every selected option occurs in the line. |
| Navbar.TitleAfterSidebarClick | src/components/Navbar.tsx:27-32 | The page a sidebar item leads to is titled after it ("New Test" for "New Semen Test"). |
| NewTestPage.Lookup | src/components/Newtestpage.tsx:90 | A field's value is found iff the form has that key. |
| NewTestPage.EmptyForm | src/components/Newtestpage.tsx:37-43 | The five fields, in order, all "". |
| NewTestPage.SetField | src/components/Newtestpage.tsx:20 | The field takes the value and keeps its position. A new key is appended. Other entries are unchanged. |
| NewTestPage.SetFieldKeepsOthers | src/components/Newtestpage.tsx:20 | Every other field keeps its value. |
| NewTestPage.SetFieldKeepsDistinctKeys | src/components/Newtestpage.tsx:20 | No key appears twice after an update. |
| NewTestPage.FirstBlankEntry | src/components/Newtestpage.tsx:26-28 | Finds a field that trims to "" iff the form is not complete. |
| NewTestPage.FirstBlankEntryIsFirst | src/components/Newtestpage.tsx:26-28 | The entry found is the first blank one: a blank entry preceded only by filled ones is the one returned. |
| NewTestPage.EmptyFormIncomplete | src/components/Newtestpage.tsx:26-45 | A cleared form is never complete. |
| NewTestPage.SetFieldKeepsComplete | src/components/Newtestpage.tsx:18-22 | Typing a non-blank value keeps a complete form complete. |
| NewTestPage.SetFieldKeepsOtherBlank | src/components/Newtestpage.tsx:18-22 | A blank field is not made up for by typing into another. |
| NewTestPage.NewTestForm.constructor | src/components/Newtestpage.tsx:6-15 | The form is the incoming state if there is one, else five empty fields; no error. |
| NewTestPage.NewTestForm.HandleChange | src/components/Newtestpage.tsx:18-22 | Only the named field changes; the error is cleared. |
| NewTestPage.NewTestForm.HandleBeginTest | src/components/Newtestpage.tsx:24-34 | Navigates with the form iff no field is blank. Otherwise it sets the error message. The form is unchanged. |
| NewTestPage.NewTestForm.HandleCancel | src/components/Newtestpage.tsx:36-45 | All five fields become "", the error is cleared, and the form cannot be submitted. |
| Dashboard.DayOfWeek | src/components/Dashboard.tsx:27 | The weekday lies in 0..6. |
| Dashboard.WeekdayRepeats | src/components/Dashboard.tsx:27 | Weekdays repeat every seven days, in both directions. |
| Dashboard.DaysFromMonday | src/components/Dashboard.tsx:28 | Lies in 0..6 and is one less than the weekday modulo 7: Sunday gives 6, Monday 0. |
| Dashboard.GetWeekDates | src/components/Dashboard.tsx:25-39 | Seven consecutive days from the week's Monday, shifted by 7·offset, on weekdays Monday to Sunday. |
| Dashboard.DayOfWeekAfter | src/components/Dashboard.tsx:33-36 | i days after a Monday is weekday (i+1) mod 7. |
| Dashboard.MondayIsMonday | src/components/Dashboard.tsx:28-30 | Every shown week starts on a Monday. |
| Dashboard.TodayShownIffCurrentWeek | src/components/Dashboard.tsx:92-93 | Today is among the shown days iff the offset is 0. |
| Dashboard.NextWeekFollows | src/components/Dashboard.tsx:49-51 | One step forward shows the following seven days. |
| Dashboard.DisplayDateIsThursday | src/components/Dashboard.tsx:58 | The day that titles the calendar is a Thursday. |
| Dashboard.WeekNavigator.constructor | src/components/Dashboard.tsx:14 | Offset 0, no back button. |
| Dashboard.WeekNavigator.GoToPreviousWeek | src/components/Dashboard.tsx:45-47 | The offset decreases by one. |
| Dashboard.WeekNavigator.GoToNextWeek | src/components/Dashboard.tsx:49-51 | The offset increases by one. |
| Dashboard.WeekNavigator.GoToCurrentWeek | src/components/Dashboard.tsx:53-55 | The offset is 0 and the back button (line 112) is hidden. |
| Dashboard.RecentTests | src/components/Dashboard.tsx:158 | The first min(10, n) rows, in order. |
| Dashboard.StatusIconFor | src/components/Dashboard.tsx:164 | The spinner is shown iff the status is "Analyzing". |
| UploadService.SingleUploadForm | src/services/uploadService.ts:56-60 | The file under "video", then testId, recordingNumber and scientist. |
| UploadService.BuildMultiUploadForm | src/services/uploadService.ts:126-135 | One "videos" part per file in input order, then the three metadata fields. |
| UploadService.MultiUploadFormReachesServer | src/services/uploadService.ts:129-135 | Once the whole body is parsed, the route handler reads back exactly the files, in order, and the three metadata fields. |
| UploadService.MetadataFirst | server/middleware/upload.js:32-33 | A form that starts with the three metadata fields yields them, whatever follows. |
| UploadService.SingleFormStorageSeesNoFields | src/services/uploadService.ts:56-60 | As written: the file is the first part, so the storage sees no field and names it in folder "unknown" as recording "1". The route handler later reads all three fields. |
| UploadService.MultiFormStorageSeesNoFields | src/services/uploadService.ts:129-135 | As written: every file part comes before the metadata, so the storage sees no field for any of them. |
| UploadService.SingleUploadFormCorrected | src/services/uploadService.ts:56-60 | Corrected: the three metadata fields, then the file. |
| UploadService.CorrectedSingleFormReachesStorage | server/middleware/upload.js:32-33 | With the corrected form the storage sees exactly the fields the route handler reads. |
| UploadService.MultiUploadFormCorrected | src/services/uploadService.ts:126-135 | Corrected: the three metadata fields, then one "videos" part per file in input order. |
| UploadService.CorrectedMultiFormReachesStorage | server/middleware/upload.js:32-33 | With the corrected form the storage sees, for every file, exactly the fields the route handler reads. |
| UploadService.Percentage | src/services/uploadService.ts:69 | The nearest integer to 100·loaded/total, halves rounded up. It lies in 0..100 when loaded ≤ total. A zero total gives NaN or Infinity. |
| UploadService.ProgressReport | src/services/uploadService.ts:67-72 | Reported iff the length is computable and a callback was given; within 0..100 for loaded ≤ total. |
| UploadService.Settle | src/services/uploadService.ts:75-100 | Resolves with the body iff the status is 2xx and the body parses, else "Invalid response from server". Non-2xx statuses reject with the body's message, "Upload failed", or "Upload failed with status <n>" (n parses back). Network error and abort reject with their own messages. |
| UploadService.RejectionHasMessage | src/services/uploadService.ts:75-100 | A rejection never has an empty message. |
| UploadService.TransportFailuresDistinct | src/services/uploadService.ts:94-100 | Network failure, cancellation and server replies give distinct messages. |
| UploadService.CheckServerHealth | src/services/uploadService.ts:191-199 | Healthy iff the body's `success` is the boolean true; false when the request or parse throws. |

## Left out

- I/O is not modelled. That covers `fetch`, `XMLHttpRequest`, the AWS SDK commands, multer and multer-s3, `fs`, `alert` and console logging. Their outcomes are parameters: HTTP replies, thrown errors, directory existence and listings, stored-file records.
- The clock and randomness are parameters. That covers `Date.now()`, `new Date()`, `toLocaleDateString` and `crypto.getRandomValues`. Dates are day numbers, so time zones, daylight saving and locale month names are not modelled.
- The `uploadDate` and `metadata` parts of the server's upload answers are not modelled: they are a clock reading and a copy of the request body.
- The S3 client singleton and its "Failed to initialize S3 client" branch (src/services/s3Service.ts:39-42, 103-106) are left out. The branch cannot be reached once the configuration check has passed.
- The catch branch of the comment loader (src/components/TestDetails.tsx:184-189) is left out: `fetchTestComments` never rejects.
- The multi-take recording workflow, the camera pages and the pure rendering files are not part of this model.
- Floating point is not modelled. `UploadService.Percentage` is computed exactly on integers; binary rounding of `loaded / total * 100` is out. NaN request fields in `createTest` are treated as present.
- JavaScript strings are modelled as sequences of code points rather than UTF-16 code units. This affects the default `sort` order for characters above U+FFFF and the sanitiser, which in JavaScript replaces each half of a surrogate pair.
- `toLowerCase` is modelled for ASCII letters only. The search and extension comparisons ignore Unicode case mapping.
- JsStrings.ExtName: handles only `path.extname` for a bare file name without directory separators, which is the only form the server passes.
- UploadService.Settle: a body that parses to `null` makes the source throw while reading `message`. The model treats every parsed body as an object.
- A non-string `message` field in an error body is treated as absent.
- TestDetails.DetailsView.LoadVideos: does not reset the carousel index, as in the source.
- TestDetails.DetailsView.HandleVideoClick: keeps the index in range only for indices of shown thumbnails, which are the only ones the page passes.
- UploadRoutes.MultiUpload: does not model multer's 10-file cap (server/routes/upload.js:65). An 11th file makes multer fail with LIMIT_UNEXPECTED_FILE, which `HandleUploadError` answers with 400 "Upload error" before the handler runs.
- multer's streaming parser is modelled only by its effect on the storage callbacks. `UploadService.StorageFields` gives them the text fields sent before the file part, as multer documents; the route handler sees every field.

## Findings

| source | as written | input that shows it | evidently intended | confidence | as-written member | corrected member |
|---|---|---|---|---|---|---|
| server/routes/upload.js:81 | A multi-upload file stored on local disk gets the URL "/uploads/<filename>". | Any local multi upload, e.g. testId "T1" storing "recording_1_5.webm" in uploads/videos/T1: the URL "/uploads/recording_1_5.webm" misses "videos/T1/". The single upload at line 26 includes the folder. | The URL "/uploads/videos/<sanitised id>/<filename>", which server/server.js:38 serves. | high; not executed | UploadRoutes.MultiFileRecord, UploadRoutes.MultiLocalUrlMissesFolder | UploadRoutes.MultiFileRecordCorrected, UploadRoutes.MultiCorrectedUrlIsStoredPath |
| server/middleware/upload.js:101-103 | The "File too large" message quotes `MAX_FILE_SIZE \|\| 524288000`, but the limit is `parseInt(MAX_FILE_SIZE) \|\| 524288000` (line 90). | MAX_FILE_SIZE="0": the message says 0 bytes while files up to 524288000 bytes are accepted. "10MB" enforces 10 bytes but quotes "10MB". | The message quotes the enforced limit. | medium; not executed | UploadMiddleware.AsWrittenLimitText, UploadMiddleware.LimitMessageMisreports | UploadMiddleware.CorrectedLimitText |
| src/services/uploadService.ts:56-60 | `uploadVideo` appends the file before testId, recordingNumber and scientist. The middleware's storage (server/middleware/upload.js:32-33, 44, 54) names the file while multer is still reading the request, so it sees none of those fields. | `uploadVideo` with testId "TEST-000001" and local storage: the file lands in uploads/videos/unknown/ as recording_1_<timestamp>.webm, while the answer (server/routes/upload.js:20-26) points to /uploads/videos/TEST-000001/. The same form order in `uploadMultipleVideos` (lines 129-135) stores every file under "unknown". | The metadata is appended before the files, so the stored place and the answered URL agree. | medium; not executed | UploadService.SingleFormStorageSeesNoFields, UploadService.MultiFormStorageSeesNoFields, UploadRoutes.SingleUploadAsSentMissesFile | UploadService.SingleUploadFormCorrected, UploadService.CorrectedSingleFormReachesStorage, UploadRoutes.SingleUploadCorrectedFindsFile, UploadService.MultiUploadFormCorrected, UploadService.CorrectedMultiFormReachesStorage, UploadRoutes.MultiUploadCorrectedFindsFiles |
