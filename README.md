# clouddropzone core in Dafny

clouddropzone is a React web application. Users drop files onto a drop zone. The app validates each file, creates a backend record for it through the Apper record SDK (the "file_c" table) and simulates its upload progress. The files in flight appear in an upload queue, and the completed ones in a gallery with a total size. A login service matches credentials against the "user_c" table.

This project models the data logic under that UI, and proves properties of the model:

- `Js` covers JavaScript values and plain objects as the records carry them. It gives property access, truthiness, `||`, template-literal rendering, `startsWith` and `includes`.
- `Records` holds the `filter`-by-property expressions that every list component is built from.
- `FileService` covers `src/services/api/fileService.js`:
  - validation;
  - the record `create` sends;
  - the payload `update` sends;
  - how create, update, delete and getAll read a reply;
  - one tick of the upload simulator, modelled as a class with the closure's `progress` and whether the interval is still set.
- `UserService` covers the part of `login` that runs after the user query.
- `FileDropZone` covers the `processFiles` intake loop, as a method with a loop, and the preview rule.
- `FileList` covers the gallery's state (`files`, `loading`, `error`) as a class. Its methods are `loadFiles`, the merge effect, `handleDelete` and `getTotalSize`.
- `FileUploadPage` and `FileUploadPageWithHeader` cover the two pages' state, as classes with their handlers and the promotion effect.
- `UploadQueue` covers the queue panel's counts, summary line and caption.
- `FileUploadProgress` covers one queued row's colour, icon, label and visible controls.
- `FilePreview` covers the preview tile: image or media-type icon.

Records are modelled as maps from property names to values (`Js.Obj`). Each function reads exactly the property names its source file reads. The SDK is not modelled: each call's reply is an input value (`SdkReply`), which is either a rejection with the SDK's message or an answer.

## Model

| member | source | states |
|---|---|---|
| Js.Or | src/services/api/fileService.js:88-90 | `a \|\| b` is always one of its operands, and it is truthy iff either operand is, so a default applies only to a falsy field |
| Js.DigitsRoundTrip | src/components/organisms/UploadQueue.jsx:35 | the decimal text a count renders as reads back as that count |
| Js.ContainsAt | src/components/molecules/FilePreview.jsx:8-11 | an occurrence of the substring at any position makes `includes` true |
| Js.ContainsHasOccurrence | src/components/molecules/FilePreview.jsx:8-11 | conversely, `includes` true yields a position where the substring occurs |
| Records.WhereMembers | src/components/organisms/FileList.jsx:22 | filtering on `r[k] === v` keeps exactly the records with that value, and never lengthens the list |
| Records.WhereNotMembers | src/components/pages/FileUploadPage.jsx:16 | filtering on `r[k] !== v` keeps exactly the records without that value |
| Records.WhereAppend | src/components/pages/FileUploadPageWithHeader.jsx:27-30 | both filters distribute over concatenation, so kept records stay in their original order |
| Records.WherePartition | src/components/pages/FileUploadPageWithHeader.jsx:27-30 | the `===` and `!==` filters together hold every record exactly as often as the list does |
| Records.WhereNotNoMatch | src/components/pages/FileUploadPageWithHeader.jsx:30 | with no record at value `v`, the `!==` filter returns the list unchanged and the `===` filter returns nothing |
| Records.WithoutIdRemovesAll | src/components/pages/FileUploadPage.jsx:15-17 | removal by `Id` keeps exactly the other records, leaves no record with that `Id`, and works piecewise over concatenation |
| Records.WithoutAbsentId | src/components/pages/FileUploadPage.jsx:16 | removing an `Id` that is not present changes nothing |
| Records.WithoutIdIdempotent | src/components/pages/FileUploadPage.jsx:16 | removing the same `Id` twice equals removing it once |
| FileService.ValidateFile | src/services/api/fileService.js:221-246 | size over 50·1024·1024 is rejected with the size message whatever the type; within the limit, an unlisted type is rejected with the type message; accepted iff within the limit and listed; 52428800 bytes is not rejected on size |
| FileService.ValidationScenarios | src/services/api/fileService.js:237-245 | a 60 MiB image is rejected on size, a 2 MiB executable on type, and a 2 MiB PNG is accepted |
| FileService.CreateRecord | src/services/api/fileService.js:84-92 | the record has exactly the six backend fields plus `uploaded_at_c`; it copies name, size and type; it copies each truthy input field; otherwise progress defaults to 0, status to "uploading" and preview to null |
| FileService.BuildUpdateData | src/services/api/fileService.js:129-139 | the payload is the `Id` plus, for each public key that is defined, its value under the backend name; an undefined key adds nothing; `uploaded_at_c` is never written |
| FileService.ProgressPayload | src/services/api/fileService.js:215 | a progress update's payload holds exactly the `Id` and `upload_progress_c` |
| FileService.CompletionPayload | src/services/api/fileService.js:213 | the completing update's payload holds exactly the `Id`, `upload_progress_c` 100 and `status_c` "completed" |
| FileService.WriteOutcome | src/services/api/fileService.js:98-115 | how create and update read a write reply; its contract is stated by `SharedBatchRule` and `SuccessReturnsFirstRecord`: success iff the batch succeeded, the operation's own message otherwise, and the first successful record's data; `ResolvesUndefined` states that the result is `undefined` exactly when the batch succeeded with no `results`, an empty `results`, or a first result without `data` |
| FileService.CreateOutcome | src/services/api/fileService.js:98-115 | `create`'s result; `SharedBatchRule` states that it succeeds iff the batch succeeded and otherwise fails with "Failed to create file record" or the SDK's message |
| FileService.UpdateOutcome | src/services/api/fileService.js:145-162 | `update`'s result; `SharedBatchRule` states that it succeeds iff the batch succeeded and otherwise fails with "Failed to update file" or the SDK's message |
| FileService.FirstSuccessData | src/services/api/fileService.js:106-114 | the data of the first successful per-record result, or none when no result succeeded |
| FileService.DeleteOutcome | src/services/api/fileService.js:181-195 | a successful `delete` resolves to `true` |
| FileService.GetAllOutcome | src/services/api/fileService.js:31-38 | succeeds iff the reply answered successfully; an SDK rejection is passed on with its message; an unsuccessful reply fails with "Failed to fetch files"; the result is the fetched data, or `[]` when there is none |
| FileService.SharedBatchRule | src/services/api/fileService.js:100-195 | create, update and delete each succeed iff the reply is successful and no per-record result failed; otherwise each fails with its own message, and an SDK rejection is passed on unchanged |
| FileService.SuccessReturnsFirstRecord | src/services/api/fileService.js:105-114 | on a successful batch with results, create and update return the first result's data |
| FileService.ResolvesUndefined | src/services/api/fileService.js:98-115 | create and update resolve to `undefined` iff the batch succeeded and the reply has no `results`, an empty `results`, or a first result without `data` |
| FileService.ProgressSimulator.constructor | src/services/api/fileService.js:207 | progress starts at 0 with the interval set |
| FileService.ProgressSimulator.Tick | src/services/api/fileService.js:208-217 | progress never decreases; reaching 100 clamps it to exactly 100, clears the interval and sends progress 100 with status "completed"; otherwise only the floored progress is sent; the value reported is the floor, in [0, 100], and is reported only when the update succeeds |
| FileService.ReportsMonotone | src/services/api/fileService.js:208-218 | over any run of ticks whose updates succeed, the reported values never decrease, stay within [0, 100], and only the last one can be 100 |
| FileService.ReportsWhenMonotone | src/services/api/fileService.js:208-218 | when any of the updates may throw, so that its tick advances the progress but reports nothing, the reported values still never decrease, stay within [0, 100], and only the last one can be 100; with every update resolving the reports are those of `ReportsMonotone`'s run |
| UserService.FirstMatch | src/services/api/userService.js:38 | the position of the first record whose `email_c` and `password_c` both match, or none iff no record matches |
| UserService.Login | src/services/api/userService.js:30-46 | an SDK rejection is passed on; an unsuccessful reply fails with "Login failed"; no matching record fails with "Invalid email or password"; otherwise the first matching record is returned with every field except `password_c` |
| FileDropZone.CreateFilePreview | src/components/organisms/FileDropZone.jsx:12-22 | the preview is non-null iff the type starts with "image/", and is then the file's data URL |
| FileDropZone.ItemRecordStartsUpload | src/components/organisms/FileDropZone.jsx:37-47 | the backend record built from a drop-zone item has progress 0, status "uploading", the file's name, size and type, and its preview or null |
| FileDropZone.FileItem | src/components/organisms/FileDropZone.jsx:37-44 | the upload item literal; `SentItemsStartUploading` and `ItemRecordStartsUpload` state that it starts at progress 0 and "uploading" with the file's name, size, type and preview |
| FileDropZone.Sent | src/components/organisms/FileDropZone.jsx:28-44 | the items sent to `create` for the first `n` files; `ProcessFiles` is proved to send exactly these and `SentItemsStartUploading` states what each one holds |
| FileDropZone.Collected | src/components/organisms/FileDropZone.jsx:46-58 | the corrected collection: an accepted file's record when `create` resolves to one; `CollectedProvenance` states provenance, order and completeness |
| FileDropZone.ContributionIsCreated | src/components/organisms/FileDropZone.jsx:46-57 | a file contributes at most one record, which is the one `create` resolved to for a file that passed validation |
| FileDropZone.ProcessFiles | src/components/organisms/FileDropZone.jsx:24-63 | the corrected intake loop: the items sent to `create` are `Sent` and the records passed on are `Collected` over all files, and `onFilesAdded` is called iff at least one record was collected; unlike line 48, a `create` result of `undefined` is skipped rather than pushed (`CollectedAsWritten` models the code as written) |
| FileDropZone.CollectedProvenance | src/components/organisms/FileDropZone.jsx:28-58 | every collected record is what `create` returned for a file that passed validation; the records keep their files' relative order; an invalid file or a failed `create` does not stop later files |
| FileDropZone.SentItemsStartUploading | src/components/organisms/FileDropZone.jsx:37-44 | every item sent to `create` has progress 0, status "uploading", and the name, size, type and preview of an accepted input file |
| FileDropZone.ContributionAsWritten | src/components/organisms/FileDropZone.jsx:46-58 | one file's contribution as the code is written: whatever `create` resolves to, `undefined` included, is pushed; `ContributionDefined` and `UndefinedEntryCollected` state how it differs from the corrected one |
| FileDropZone.CollectedAsWritten | src/components/organisms/FileDropZone.jsx:28-58 | the collection as the code is written; `AsWrittenDiffersOnlyByUndefined` and `UndefinedEntryCollected` state its relation to `Collected` |
| FileDropZone.AsWrittenDiffersOnlyByUndefined | src/components/organisms/FileDropZone.jsx:47-48 | dropping the `undefined` entries from what the code as written collects gives exactly the corrected collection |
| FileDropZone.UndefinedEntryCollected | src/components/organisms/FileDropZone.jsx:47-51 | a valid file whose create reply succeeds without results makes the code as written collect `[undefined]`, where the corrected loop collects nothing |
| FilePreview.FileIcon | src/components/molecules/FilePreview.jsx:7-13 | always one of FileText, Table or File; File iff the type mentions none of the five words; Table iff it mentions neither "pdf" nor "word" but does mention "excel" or "spreadsheet" |
| FilePreview.SpreadsheetBeforeText | src/components/molecules/FilePreview.jsx:10-11 | a spreadsheet type that also mentions "text" still maps to Table |
| FilePreview.Preview | src/components/molecules/FilePreview.jsx:5-31 | the image is shown iff the type is a string starting with "image/" and the preview is truthy; otherwise the icon for the type is shown; a record without a string `type` throws a TypeError |
| FilePreview.AcceptedDocumentIcon | src/components/molecules/FilePreview.jsx:8-11 | each accepted non-image type gets a specific icon |
| FilePreview.AcceptedDocumentsHaveSpecificIcon | src/components/molecules/FilePreview.jsx:8-11 | every type `validateFile` accepts that is not an image maps to FileText or Table, never File |
| FileList.CompletedOnly | src/components/organisms/FileList.jsx:22 | `filter(file => file.status === "completed")`; `Records.WhereMembers` states that it keeps exactly the completed records and `Records.WhereAppend` that it keeps their order |
| FileList.Unseen | src/components/organisms/FileList.jsx:39-41 | the completed uploads not yet listed; `UnseenMembers` states its contents |
| FileList.Merge | src/components/organisms/FileList.jsx:36-43 | the new `files` set by the merge effect; `MergeContents` and `MergeIdempotent` state its contents, order and idempotence |
| FileList.UnseenMembers | src/components/organisms/FileList.jsx:39-41 | the new files are exactly the candidates whose `Id` is not already listed |
| FileList.MergeContents | src/components/organisms/FileList.jsx:36-42 | the merge adds exactly the completed uploads whose `Id` is not listed, and every record placed in front of the existing files is such an upload, so no listed record is added again; they come before the existing files, which keep their order |
| FileList.MergeIdempotent | src/components/organisms/FileList.jsx:39-41 | merging the same uploads a second time adds nothing |
| FileList.TotalSize | src/components/organisms/FileList.jsx:77-79 | the sum is a number iff every file's size is a number, `null` or a boolean (the values `number + size` adds as numbers), and is 0 for an empty list |
| FileList.NullAndBooleanSizes | src/components/organisms/FileList.jsx:78 | a `null` size adds 0, `true` adds 1, and a missing size makes the sum not a number |
| FileList.TotalSizeOne | src/components/organisms/FileList.jsx:78 | the total of a one-file list is that file's size as a number, so with `TotalSizeAppend` every total is the sum of the sizes |
| FileList.TotalSizeAppend | src/components/organisms/FileList.jsx:78 | the total of two joined lists is the sum of their totals |
| FileList.DeleteSplitsTotal | src/components/organisms/FileList.jsx:50 | removing an `Id` takes exactly the sizes of the entries with that `Id` off the total |
| FileList.FileListState.constructor | src/components/organisms/FileList.jsx:13-15 | no files, loading, no error |
| FileList.FileListState.LoadFiles | src/components/organisms/FileList.jsx:17-28 | on success the files are exactly the fetched completed records, in fetched order, and the error is cleared; on failure the files stay and the error is the message; loading ends either way |
| FileList.FileListState.MergeUploaded | src/components/organisms/FileList.jsx:35-45 | the files become the merge of the old files with the uploads; nothing else changes |
| FileList.FileListState.HandleDelete | src/components/organisms/FileList.jsx:47-56 | after a successful delete, every entry with that `Id` is removed and `onFileDeleted` is called; on failure nothing changes |
| FileList.FileListState.GetTotalSize | src/components/organisms/FileList.jsx:77-79 | a number iff every listed file's size is a number, `null` or a boolean; 0 for no files |
| FileUploadPage.UploadPageState.constructor | src/components/pages/FileUploadPage.jsx:9 | the queue starts empty |
| FileUploadPage.UploadPageState.HandleFilesAdded | src/components/pages/FileUploadPage.jsx:11-13 | the queue becomes the new records followed by the old queue, so its length grows by the number of new records |
| FileUploadPage.UploadPageState.HandleCancelUpload | src/components/pages/FileUploadPage.jsx:15-17 | every entry with that `Id` leaves the queue and the others stay in order; cancelling an absent `Id` changes nothing |
| FileUploadPage.UploadPageState.HandleFileDeleted | src/components/pages/FileUploadPage.jsx:19-22 | the same effect on the queue as cancelling |
| FileUploadPageWithHeader.Promote | src/components/pages/FileUploadPageWithHeader.jsx:27-31 | the new `files` and queue after the promotion effect; `PromoteMoves` and `PromoteSettles` state what moves, what stays and that it settles |
| FileUploadPageWithHeader.PromoteMoves | src/components/pages/FileUploadPageWithHeader.jsx:27-30 | after promotion no queue entry is at 100; the promoted entries follow the existing files in queue order; files and queue together keep the same multiset |
| FileUploadPageWithHeader.PromoteSettles | src/components/pages/FileUploadPageWithHeader.jsx:28 | with no entry at 100 both lists are unchanged; running the effect again after a promotion changes nothing |
| FileUploadPageWithHeader.HeaderPageState.constructor | src/components/pages/FileUploadPageWithHeader.jsx:10-11 | both lists start empty |
| FileUploadPageWithHeader.HeaderPageState.HandleFilesAdded | src/components/pages/FileUploadPageWithHeader.jsx:13-15 | the new records are appended to the queue, and the files are untouched |
| FileUploadPageWithHeader.HeaderPageState.HandleCancelUpload | src/components/pages/FileUploadPageWithHeader.jsx:17-19 | the `Id` leaves the queue only, and the files are untouched |
| FileUploadPageWithHeader.HeaderPageState.HandleFileDeleted | src/components/pages/FileUploadPageWithHeader.jsx:21-23 | the `Id` leaves the files only, and the queue is untouched |
| FileUploadPageWithHeader.HeaderPageState.PromoteCompleted | src/components/pages/FileUploadPageWithHeader.jsx:25-32 | the new state is the promotion of the old; no queue entry is left at 100; the multiset of files and queue is preserved |
| UploadQueue.CountStatus | src/components/organisms/UploadQueue.jsx:8-10 | the number of entries whose `status_c` equals the status: at most the queue length, and 0 iff no entry has it |
| UploadQueue.CountsBounded | src/components/organisms/UploadQueue.jsx:8-10 | the uploading, completed and error counts sum to at most the queue length, with equality iff every `status_c` is one of the three |
| UploadQueue.FilesLabel | src/components/organisms/UploadQueue.jsx:35 | "file" iff the length is 1, otherwise "files" |
| UploadQueue.Summary | src/components/organisms/UploadQueue.jsx:28-30 | the summary line is empty iff all three counts are zero; a positive uploading count opens it with "n uploading, ", a positive completed count opens it when nothing is uploading, and a positive failed count closes it with ", n failed" |
| UploadQueue.Panel | src/components/organisms/UploadQueue.jsx:5-35 | nothing is rendered iff the queue is empty; otherwise each count is the number of entries with that `status_c`, the counts are bounded by the length, the summary line is `Summary` of the three counts, and the caption is the length with its label |
| FileUploadProgress.StatusColor | src/components/molecules/FileUploadProgress.jsx:15-26 | completed maps to green, error to red, uploading to primary, and anything else to gray, each iff |
| FileUploadProgress.StatusIcon | src/components/molecules/FileUploadProgress.jsx:28-39 | completed maps to CheckCircle, error to XCircle, uploading to Loader2, and anything else to Clock, each iff, so the named statuses get distinct icons |
| FileUploadProgress.ColorAndIconAgree | src/components/molecules/FileUploadProgress.jsx:15-39 | two records get the same colour iff they get the same icon |
| FileUploadProgress.StatusLabel | src/components/molecules/FileUploadProgress.jsx:58 | "<uploadProgress>%" while uploading; otherwise the status string, and nothing for a missing, null or boolean status |
| FileUploadProgress.InlineIcon | src/components/molecules/FileUploadProgress.jsx:60-71 | an inline icon appears iff the status is one of the three named ones; it is the `getStatusIcon` icon, and it spins iff uploading |
| FileUploadProgress.ShowCancel | src/components/molecules/FileUploadProgress.jsx:77 | the cancel button appears iff the progress bar does and `onCancel` is supplied, so it only ever appears beside the spinning Loader2 icon |
| FileUploadProgress.ShowProgressBar | src/components/molecules/FileUploadProgress.jsx:87 | the progress bar appears iff the status is uploading, which is exactly when the icon is Loader2 |

## Left out

- SDK client construction and the SDK calls themselves (`fetchRecords`, `createRecord`, `updateRecord`, `deleteRecord`) are foreign calls. Their replies are inputs to the model. The request parameters (field lists, ordering, the `where` clause of the user query) are not modelled.
- `getById` is not modelled. It is a plain SDK fetch with a "File not found" error and nothing else.
- `logout` is not modelled. It delegates to the SDK's UI.
- `parseInt(id)` is modelled for integer Ids only. `BuildUpdateData` takes the Id as an `int`, and `parseInt` of an integer is that integer. The parsing of string Ids is not modelled.
- The clock is not modelled. The `toISOString()` timestamp in `create` is the parameter `now`.
- `FileReader` is not modelled. The data URL of each image is the parameter `dataUrls[i]`.
- Timers are not modelled. The interval in `simulateUploadProgress` is modelled as one `Tick` per callback, with `Math.random() * 15` as the parameter `increment`.
- FileService.ReportsMonotone: nothing is claimed about eventual completion, because every increment may be 0. It covers runs in which every `update` resolves; `ReportsWhenMonotone` covers runs in which some updates throw.
- The awaits are modelled as sequential. Interleavings between the simulator, React state updates and other handlers are not modelled.
- The progress callback in `processFiles` is empty, so the simulator's reported values reach no component.
- `formatFileSize` and `formatDate` are not modelled. They depend on floating point (`Math.log`, `toFixed`) and the locale.
- Rendering, toasts, drag-over state, `isUploading` and animations are not modelled.
- `Progress.jsx` is not modelled. It only turns a number into a CSS width.
- FileList.TotalSize: when the JavaScript sum is not a number, the model does not say what it is. It is a string when some size is a string, otherwise `NaN` when some size is missing. Both cases collapse to `None` here.
- Record numbers are integers. Non-integral sizes or progress values in records are not modelled. The simulator's running progress is a `real`.
- Cancelling only removes the entry from the queue. The interval keeps running and keeps updating the backend, which the model does not follow past one tick.
- Promotion in `FileUploadPageWithHeader` happens when an entry's `upload_progress_c === 100`, not when the backend confirms the upload.
- The components read different field names for the same record, and the model keeps each one as written:
  - `FilePreview` reads `type` and `preview`, while backend-form records carry `type_c` and `preview_c`, so `Preview` reports the `TypeError` that `type.startsWith` throws on such a record.
  - `FileList` filters on `status` and sums `size`, while backend records carry `status_c` and `size_c`.

## Findings

| source | as written | input that shows it | evidently intended | confidence | as-written member | corrected member |
|---|---|---|---|---|---|---|
| src/components/organisms/FileDropZone.jsx:47-51 | `createdFile` is pushed into `processedFiles` before it is used, so when `create` resolves to `undefined` that `undefined` is collected and later handed to `onFilesAdded`. `create` resolves to `undefined` when the reply succeeds with no `results`, with an empty `results`, or when the first successful result has no `data` (`FileService.ResolvesUndefined`). The following `createdFile.Id` then throws, so the failure toast also appears for the same file. | one file `a.txt` of type "text/plain" and 10 bytes, whose create reply is successful with no `results` | only a record that `create` actually returned is collected, and a file without one is skipped like a failed create | high (by proof; not executed) | FileDropZone.UndefinedEntryCollected | FileDropZone.ProcessFiles |
