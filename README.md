# questionnaire_v1 — a verified model of the survey logic

questionnaire_v1 is a survey web application. Signed-in users create
surveys with text or image choices. A survey may carry respondent
attributes: age, gender and location presets, plus custom categories.
Other users answer once each, comment, and see the results: an overall
tally and cross-tables by attribute.

This Dafny project models the sequential logic inside the application's
pages and API handlers, one module per source file:

- `SurveyTypes` (`types.dfy`): the records of a survey (Survey, Choice, AttributeSetting, AttributeChoice, Response, RespondentAttribute) and an `Array.prototype.filter` model.
- `SurveyResults` (`results.dfy`): the results view. It covers the overall tally with its rounded percentage and stable sort by count, the per-attribute pie-chart groups, and the segmented table with its cells. It includes the table as written, which is defective, and a corrected table.
- `ResponseRoute` (`response_route.dfy`): `POST /api/surveys/response`, a write-once store of responses keyed by (user, survey).
- `SurveyResponseForm` (`survey_response.dfy`): the response form. It covers the attribute selection object, the coverage guard and the request payload.
- `SurveyRoute` (`survey_route.dfy`): `POST /api/surveys`. It shapes the creation form into the nested record: choices, preset and custom attribute settings, and the thumbnail URL.
- `CreateAction` (`create_action.dfy`): the `createSurvey` server action, an alternative construction with 1-based orders.
- `CreateForm` (`create_form.dfy`): the creation form's editable state. It covers the bounded lists, the time field guard, the voting offset and the multipart request it sends.
- `VotingStatus` (`voting_status.dfy`): the expired predicate and the remaining days, hours and minutes.
- `Comments` (`comments.dfy`): the comment panel on the client (trim, guard, prepend) and `POST /api/comments` on the server (validation, append).
- `Storage` (`storage.dfy`): the MinIO backend's object URL, and recovery of the object name from a URL with `split('/').pop()`.

Parts of the source that change state step by step are classes:
`ResponseStore`, `ResponseForm`, `SurveyForm`, `CommentStore`, `CommentPanel` and `MinioStorage`.
The list and record shaping is done by functions, and lemmas state its properties.

Quantities are modelled exactly:

- The overall percentage is an integer number of tenths of a percent.
- A table cell's percentage is an exact `real`.
- Times are integer milliseconds. The voting period is an integer number of minutes.

## Model

| member | source | states |
|---|---|---|
| SurveyResults.CountFor | src/components/SurveyResults.tsx:117 | a choice's count never exceeds the number of responses |
| SurveyResults.CountForIsFilterLength | src/components/SurveyResults.tsx:117 | the count equals the length of the responses filtered by `choiceId === choice.id` |
| SurveyResults.CountForIsMultiplicity | src/components/SurveyResults.tsx:117 | the count is the number of times the choice id occurs among the responses' choice ids |
| SurveyResults.PercentTenths | src/components/SurveyResults.tsx:118-123 | the result is `count*100/max(total,1)` rounded to the nearest tenth, with halves rounded up (exact bracketing inequality); it is at most 100.0 when the count does not exceed the total |
| SurveyResults.SortByCount | src/components/SurveyResults.tsx:128 | the sorted rows are a permutation of the input, with the same length, ordered by non-increasing count |
| SurveyResults.SortKeepsTies | src/components/SurveyResults.tsx:128 | stability: for every count value, the rows with that count keep their relative order |
| SurveyResults.OverallResultsRows | src/components/SurveyResults.tsx:115-129 | the overall result has one row per choice, as a permutation of the per-choice rows; counts are non-increasing; every row counts the responses for its own choice; equal counts stay in choice order |
| SurveyResults.NoResponsesZeroPercent | src/components/SurveyResults.tsx:118-123 | with no responses every count and every percentage is 0, with no division by zero |
| SurveyResults.PercentBounded | src/components/SurveyResults.tsx:118-123 | every overall percentage is at most 100.0 |
| SurveyResults.FavoriteColourTally | src/components/SurveyResults.tsx:115-129 | Red, Red, Blue gives the rows Red 2 (66.7%) and then Blue 1 (33.3%) |
| SurveyResults.OverallCountsSum | src/components/SurveyResults.tsx:116-126 | if choice ids are distinct and every response names a choice, the counts sum to the number of responses |
| SurveyResults.SegmentExact | src/components/SurveyResults.tsx:88-93 | a segment holds exactly the responses carrying the (setting id, attribute choice id) pair, each as often as it occurs and in order |
| SurveyResults.FindAttribute | src/components/SurveyResults.tsx:84 | `find` gives None exactly when no setting has the id; otherwise it gives the first setting with that id |
| SurveyResults.UnknownAttributeNoGroups | src/components/SurveyResults.tsx:84-85 | an attribute id the survey does not define yields no groups |
| SurveyResults.GroupEntries | src/components/SurveyResults.tsx:95-103 | every slice kept in a chart has a positive count no larger than its total, the total is the segment size, and the slice counts one survey choice in the segment; every choice with a positive count in the segment keeps its slice; the slices are a subsequence of the per-choice slices, so they stay in choice order |
| SurveyResults.GroupKeptOnlyIfVoted | src/components/SurveyResults.tsx:103-109 | a chart that survives has some response in its segment for a survey choice |
| SurveyResults.GroupKeptIfVoted | src/components/SurveyResults.tsx:103-109 | a chart whose segment holds a response for a survey choice survives |
| SurveyResults.AttributeResultsGroups | src/components/SurveyResults.tsx:83-110 | the groups are the non-empty charts of the setting's attribute choices, in attribute-choice order (a subsequence of all charts); every non-empty chart is kept |
| SurveyResults.TableCell | src/components/SurveyResults.tsx:332-341 | the count is the number of the segment's responses for the choice, at most the segment size; for an empty segment the cell is 0 and 0%; otherwise percentage × size = count × 100, so the percentage lies between 0 and 100 |
| SurveyResults.Share | src/components/SurveyResults.tsx:339-341 | the ratio is `count/n*100` for `n > 0` and 0 otherwise, always within 0 to 100 |
| SurveyResults.SegmentedTableMislabelsCounts | src/components/SurveyResults.tsx:313-341 | as written, row i is labelled with the i-th sorted row but its cells count `survey.choices[i]` |
| SurveyResults.SegmentedTableCounterexample | src/components/SurveyResults.tsx:313-341 | with Red, Blue and one Blue vote, the first row reads "Blue" with count 0, while Blue's count in that segment is 1 |
| SurveyResults.CorrectedTableCountsOwnChoice | src/components/SurveyResults.tsx:313-341 | in the corrected table every row's cells count the choice whose label the row shows |
| SurveyResults.ColumnCountsSum | src/components/SurveyResults.tsx:332-338 | within one segment, if choice ids are distinct and every response names a choice, the column counts sum to the segment size |
| ResponseRoute.StatusOf | src/app/api/surveys/response/route.ts:9-51 | the status is 200 exactly for a created response, 401 exactly without a session, 400 exactly for "Already responded", and 500 exactly for a server error |
| ResponseRoute.FindResponse | src/app/api/surveys/response/route.ts:17-24 | the lookup gives None exactly when no stored response has the (user, survey) pair; otherwise it gives a stored response for that pair |
| ResponseRoute.AppendKeepsUnique | src/app/api/surveys/response/route.ts:17-31 | inserting a response for a pair with none keeps at most one response per pair |
| ResponseRoute.ResponseStore.Post | src/app/api/surveys/response/route.ts:6-53 | no session gives 401; an unreadable body or a missing survey id gives 500; an existing pair gives "Already responded" (400); a missing choice or attribute list gives 500; in all of these the store is unchanged. Otherwise exactly one response is appended, with the session user, the survey and choice ids, and one attribute row per submitted pair. Any attribute list and any choice id is accepted, and uniqueness is preserved |
| ResponseRoute.StoredAttributesFollowAnswers | src/app/api/surveys/response/route.ts:37-41 | one RespondentAttribute per submitted pair, in order, mapping attributeId to the setting id and choiceId to the attribute choice id |
| ResponseRoute.SecondSubmissionRefused | src/app/api/surveys/response/route.ts:17-28 | a second submission by the same user for the same survey is refused after a first one is created |
| SurveyResponseForm.Lookup | src/components/SurveyResponse.tsx:31 | a key lookup is None exactly when the key is absent; otherwise it returns the stored value |
| SurveyResponseForm.SetEntryUpdates | src/components/SurveyResponse.tsx:108-111 | the spread update makes the key read the new value and leaves every other key's value unchanged; key order is kept and a new key goes last |
| SurveyResponseForm.SetEntryKeepsDistinct | src/components/SurveyResponse.tsx:108-111 | the update never duplicates a key |
| SurveyResponseForm.HasAllRequiredAttributes | src/components/SurveyResponse.tsx:30-32 | true exactly when every survey attribute has a selection other than the empty placeholder |
| SurveyResponseForm.ResponseForm.constructor | src/components/SurveyResponse.tsx:14-16 | the form starts with no choice, no attribute selection and not submitting |
| SurveyResponseForm.ResponseForm.SelectChoice | src/components/SurveyResponse.tsx:74 | the selected choice becomes the clicked choice id |
| SurveyResponseForm.ResponseForm.SelectAttribute | src/components/SurveyResponse.tsx:106-111 | only the changed attribute's selection is overwritten; the key order is kept, with a new attribute id appended last, so the payload order is fixed; keys stay distinct and are survey attribute ids |
| SurveyResponseForm.ResponseForm.HandleSubmit | src/components/SurveyResponse.tsx:18-62 | without a session the outcome is the login prompt; with no selected choice, an alert; with a missing attribute, an alert and no request; otherwise the request carries the survey id, the choice and one pair per selection. `isSubmitting` is false afterwards on every path |
| SurveyResponseForm.PayloadCoversAttributes | src/components/SurveyResponse.tsx:30-50 | a request that passes the guard names every survey attribute with a non-empty choice, names each attribute at most once, and names nothing else |
| SurveyRoute.BaseUrl | src/app/api/surveys/route.ts:23-25 | the public base URL if it is set and non-empty; otherwise `https://` plus the Vercel host if that is set; otherwise `http://localhost:3000` |
| SurveyRoute.ThumbnailUrlParts | src/app/api/surveys/route.ts:28 | the thumbnail URL is the base URL, then `/api/thumbnail?title=`, then the encoded title |
| SurveyRoute.TextOrNull | src/app/api/surveys/route.ts:45-52 | empty or missing text becomes null; other text is kept |
| SurveyRoute.ImageUrl | src/app/api/surveys/route.ts:34-53 | a choice has an image URL exactly when its file flag is set, `file_<index>` is present and the upload returns; the URL is then the one the upload returned for the object named after the user, the time and the file name |
| SurveyRoute.Numbered | src/app/api/surveys/route.ts:78-81 | attribute choices keep the given texts in order, numbered from the base |
| SurveyRoute.Post | src/app/api/surveys/route.ts:7-139 | no session gives 401 and only then; unparsable choices or attributes, or any failing upload, give 500. A signed-in request with both fields parsed and no failing upload is created, with the built choices and settings. A created record has the session user, the title, the choice type, the thumbnail URL, and a voting end exactly when one was given |
| SurveyRoute.CreatedChoices | src/app/api/surveys/route.ts:32-70 | one choice per input, in order, with `order = index` from 0; text or null; an image URL exactly when the choice was flagged and its file is present, and then the uploaded URL |
| SurveyRoute.PresetKinds | src/app/api/surveys/route.ts:73-110 | a preset kind is present exactly when its flag is set, in the order AGE, GENDER, LOCATION |
| SurveyRoute.AttributeOrder | src/app/api/surveys/route.ts:73-120 | the settings are the chosen presets, ranked AGE < GENDER < LOCATION with none repeated, followed by one CUSTOM setting per custom attribute in submitted order |
| SurveyRoute.PresetSizes | src/app/api/surveys/route.ts:78-108 | the presets have 6, 4 and 47 choices; in each preset, every choice has `order = index` |
| CreateAction.CreateSurvey | src/app/create/action.ts:6-78 | a missing session returns `{success:false}` with "Error: Unauthorized" instead of throwing; an unparsable field fails; otherwise the result is success with the session user, the title, the type and the same thumbnail formula as the route |
| CreateAction.CreatedRecord | src/app/create/action.ts:36-52 | one choice per input in order, numbered from 1, with the text and image URL as submitted; one setting per input attribute in order, with type and title copied and choices numbered from 1 |
| CreateAction.OrdersDifferByOne | src/app/create/action.ts:36-40 | the action's order of choice i is the route's order plus one |
| CreateForm.Without | src/components/CreateSurveyForm.tsx:48 | removing at an index in range drops exactly that element and keeps the rest in order; an index out of range changes nothing |
| CreateForm.ParseIntOrZero | src/components/CreateSurveyForm.tsx:134-136 | a digit string gives its decimal value; text starting with a non-digit gives 0 |
| CreateForm.VotingOffsetMinutes | src/components/CreateSurveyForm.tsx:134-141 | when hours and minutes are within their menus (below 24 and 60), the offset in minutes splits back into the parsed days, hours and minutes |
| CreateForm.CountdownShowsFields | src/components/CreateSurveyForm.tsx:134-143 | the countdown read at the moment of submission, at the end the form submits, shows the parsed days, hours and minutes of the period fields |
| CreateForm.SurveyForm.constructor | src/components/CreateSurveyForm.tsx:26-38 | the form starts with two empty choices, no custom attributes and a period of 1 day, 0 hours, 0 minutes |
| CreateForm.SurveyForm.AddChoice | src/components/CreateSurveyForm.tsx:40-44 | an empty choice is appended only below 10; the 2..10 bound is kept |
| CreateForm.SurveyForm.RemoveChoice | src/components/CreateSurveyForm.tsx:46-50 | a choice is removed only above 2; the bound is kept |
| CreateForm.SurveyForm.SetChoiceText | src/components/CreateSurveyForm.tsx:52-56 | only the text of the choice at the index changes |
| CreateForm.SurveyForm.SetChoiceFile | src/components/CreateSurveyForm.tsx:58-66 | only the file of the choice at the index changes |
| CreateForm.SurveyForm.AddCustomAttribute | src/components/CreateSurveyForm.tsx:69-71 | a new attribute with an empty title and one empty choice is appended |
| CreateForm.SurveyForm.RemoveCustomAttribute | src/components/CreateSurveyForm.tsx:73-75 | the attribute at the index is removed |
| CreateForm.SurveyForm.SetCustomAttributeTitle | src/components/CreateSurveyForm.tsx:77-81 | only that attribute's title changes |
| CreateForm.SurveyForm.AddCustomChoice | src/components/CreateSurveyForm.tsx:83-89 | an empty choice is added only below 10; the 1..10 bound is kept |
| CreateForm.SurveyForm.RemoveCustomChoice | src/components/CreateSurveyForm.tsx:91-99 | a choice is removed only above 1; the bound is kept |
| CreateForm.SurveyForm.SetCustomChoiceText | src/components/CreateSurveyForm.tsx:101-109 | only that attribute choice's text changes |
| CreateForm.SurveyForm.SetTime | src/components/CreateSurveyForm.tsx:111-122 | the field is set only when the value is empty or all digits and its value is at most the maximum; otherwise it and the other fields are unchanged |
| CreateForm.SurveyForm.Submission | src/components/CreateSurveyForm.tsx:129-151 | as written: the request carries the form's title and choice type, one JSON choice per form choice, the three preset flags and every custom attribute's title and choices, and a voting end that is the rendering of now + the parsed period in minutes × 60000 ms; it has no `file_<i>` fields |
| CreateForm.SurveyForm.CorrectedSubmission | src/components/CreateSurveyForm.tsx:129-151 | the corrected request is the same request plus `file_<i>` exactly for every choice with a picked image, holding that image |
| CreateForm.SurveyForm.HandleSubmit | src/components/CreateSurveyForm.tsx:124-167 | the request sent is the submission; `isSubmitting` is false afterwards |
| CreateForm.ChoicesJson | src/components/CreateSurveyForm.tsx:132 | each serialised choice keeps its text, and its file flag is set exactly when an image was picked |
| CreateForm.PickedFiles | src/components/CreateSurveyForm.tsx:129-151 | `file_<i>` is present exactly for the choices with a picked image, and holds that image |
| CreateForm.SubmittedImagesDropped | src/components/CreateSurveyForm.tsx:129-151 | as written, a signed-in submission is always created, and no created choice gets an image URL, whatever images were picked |
| CreateForm.CorrectedSubmissionKeepsImages | src/components/CreateSurveyForm.tsx:129-151 | with the files appended and no upload failing, a signed-in submission is created, and a choice gets an image URL exactly when an image was picked for it; the URL is that image's upload URL |
| CreateForm.OffsetSplitsBack | src/components/CreateSurveyForm.tsx:134-141 | days×1440 + hours×60 + minutes, with hours < 24 and minutes < 60, splits back into the same three values |
| VotingStatus.TotalSeconds | src/components/VotingStatus.tsx:16 | the whole seconds left, rounded down (floor), and 0 once the end has passed |
| VotingStatus.TimeRemainingDecomposes | src/components/VotingStatus.tsx:15-22 | hours < 24 and minutes < 60, and days×86400 + hours×3600 + minutes×60 ≤ seconds left < that + 60 |
| VotingStatus.ExpiredShowsZero | src/components/VotingStatus.tsx:12-19 | when end ≤ now, days, hours and minutes are all 0 |
| VotingStatus.RemainingRecoversOffset | src/components/VotingStatus.tsx:15-22 | a deadline set days, hours and minutes ahead shows exactly those values at the moment it was set |
| Comments.TrimShape | src/components/SurveyComments.tsx:42 | the trimmed text is a piece of the input with only white space around it, and it does not start or end with white space |
| Comments.TrimEmptyIffAllSpace | src/components/SurveyComments.tsx:42 | the trimmed text is empty exactly when the input is all white space |
| Comments.TrimIdempotent | src/components/SurveyComments.tsx:53 | trimming twice equals trimming once |
| Comments.CommentStore.Post | src/app/api/comments/route.ts:6-42 | no session gives 401; an unreadable body gives 500; a missing or empty survey id or content gives 400; in all of these nothing is stored. Otherwise exactly one comment is appended with the content, the survey id and the session user |
| Comments.WhitespaceCommentStored | src/app/api/comments/route.ts:15-25 | content that is only white space is accepted, because the server does not trim |
| Comments.CommentPanel.constructor | src/components/SurveyComments.tsx:26-28 | the panel starts with the initial comments, an empty input and not submitting |
| Comments.CommentPanel.Edit | src/components/SurveyComments.tsx:92 | the input becomes the typed text |
| Comments.CommentPanel.HandleSubmit | src/components/SurveyComments.tsx:40-68 | no user, an empty trimmed input or a running submission is a no-op. Otherwise the trimmed input is sent: on success the returned comment is prepended and the input cleared; on failure both are unchanged. `isSubmitting` is false afterwards |
| Comments.PanelRequestsPassServerCheck | src/components/SurveyComments.tsx:42-55 | a request the panel sends passes the server's field check, and its content has no surrounding white space |
| Storage.Split | src/lib/storage/minio-storage.ts:56 | `split('/')` gives at least one piece, and no piece contains '/' |
| Storage.JoinSplit | src/lib/storage/minio-storage.ts:56 | joining the pieces with '/' gives back the original text |
| Storage.LastSegment | src/lib/storage/minio-storage.ts:56 | the name taken from a URL contains no '/' |
| Storage.MinioStorage.constructor | src/lib/storage/minio-storage.ts:8-17 | the bucket and endpoint are fixed at construction |
| Storage.MinioStorage.UploadFile | src/lib/storage/minio-storage.ts:47-53 | puts the object into the bucket and returns `endpoint/bucket/filename` |
| Storage.MinioStorage.DeleteFile | src/lib/storage/minio-storage.ts:55-58 | removes, from the same bucket, the object named by the text after the URL's last '/' |
| Storage.DeleteFindsUpload | src/lib/storage/minio-storage.ts:47-57 | round trip: for a filename without '/', the name recovered from its object URL is that filename |
| Storage.NestedNameNotRecovered | src/lib/storage/minio-storage.ts:56 | for the filename "a/b" the name recovered is only "b" |
| Storage.UploadThenDelete | src/lib/storage/minio-storage.ts:47-58 | uploading and then deleting by the returned URL puts and removes the same object in the same bucket |

## Left out

- Markup, charts, tooltips and `toFixed`/`toLocaleString` formatting are not modelled. Percentages are exact, not floating point.
- SurveyResults.PercentTenths: the source rounds a floating-point product with `Math.round`. The model rounds the exact ratio half up, so the two can differ where binary rounding error falls on a .05 boundary.
- SurveyResults.OverallRow: carries the choice id, which the source row lacks. The id is not shown; it lets properties name the choice a row was computed for after the sort.
- Summing real-valued cell percentages to 100 is not stated. The integer fact behind it, that column counts sum to the segment size, is stated (`ColumnCountsSum`).
- Generated ids, creation timestamps and the author profiles returned with comments are left out.
- Sessions are `Option<string>`: a session whose user id is the empty string counts as signed in, while `!session?.user?.id` would reject it. Ids are generated and never empty, so this does not arise.
- Concurrency is out of scope. The check-then-insert race between the lookup and the insert in the response handler is not modelled: the store is sequential.
- ResponseRoute.ResponseStore: the table is a list of rows with a uniqueness invariant, not a keyed map.
- Store failures (database errors, foreign-key violations, an unknown survey id) and session-lookup failures are not modelled. Error paths cover the missing session, unreadable or incomplete bodies and failed uploads.
- JSON fields of the wrong type (a number where a string is expected, say) are not modelled. A field is either present as the expected shape or missing.
- SurveyRoute.Post: the voting end is kept as the submitted text. `new Date(...)` parsing, and the store rejecting an invalid date, are not modelled.
- SurveyRoute.Post: `encodeURIComponent`, the storage upload and `Date.now()` are parameters. The upload is a function returning the URL, or None when it throws.
- CreateForm: the voting end on the client is `now + offset` in milliseconds, rendered by an `isoOf` parameter. JavaScript `Date` local-time arithmetic (`setDate`, `setHours`, daylight saving) is not modelled.
- CreateForm.ParseIntOrZero: leading blanks and a sign are not modelled, since the period fields only ever hold menu values or the guarded digit strings.
- CreateForm.SurveyForm: the index-targeted edits require an index in range. An out-of-range index would make JavaScript write a sparse entry or throw; the interface never passes one.
- CreateForm.SurveyForm: the title, choice-type and preset-flag setters are plain assignments and are not modelled as methods.
- Lines 79, 86 and 107 of src/components/CreateSurveyForm.tsx mutate nested objects through a shallow copy. This also changes the previous state's objects. The model updates values, so that aliasing is not captured.
- `handleTimeChange` (src/components/CreateSurveyForm.tsx:111-122) is not attached to any input in the form's markup. It is modelled on its own as `SetTime`.
- SurveyResponseForm.ResponseForm.SelectAttribute: requires a survey attribute id, because the form renders a select only for those ids.
- SurveyResponseForm.ResponseForm.HandleSubmit and Comments.CommentPanel.HandleSubmit: the network request, the alert, the page reload and the navigation are represented by the returned outcome. The server's reply is a parameter.
- Storage: the MinIO client is not modelled. Its put and remove calls are recorded in order. The bucket initialisation and its access policy are left out.
- Storage.MinioStorage: `MINIO_ENDPOINT` is taken as given text.
- The Vercel storage backend, the storage-type switch, thumbnail rendering, authentication and the pages' database reads are not part of this model.
- VotingStatus: an invalid date, where `getTime()` is NaN, is not modelled.

## Findings

| source | as written | input that shows it | evidently intended | confidence | as-written member | corrected member |
|---|---|---|---|---|---|---|
| src/components/SurveyResults.tsx:313-341 | row `i` of the segmented table takes its label from the count-sorted `overallResults[i]`, but counts responses for the unsorted `survey.choices[i]` | choices Red, Blue; one response for Blue tagged with the only attribute choice: the first row reads "Blue" with count 0, while Blue has 1 | each row counts the choice it is labelled with | not executed; high | SurveyResults.SegmentedTableCounterexample | SurveyResults.CorrectedTableCountsOwnChoice |
| src/components/CreateSurveyForm.tsx:129-151 | the client's multipart form never appends `file_<i>`, while `POST /api/surveys` (src/app/api/surveys/route.ts:34-35) uploads an image only when that field is present | any survey with an image picked for a choice: every created choice has a null image URL | append each picked image as `file_<i>`, so the route uploads it | not executed; high | CreateForm.SubmittedImagesDropped | CreateForm.CorrectedSubmissionKeepsImages |
