# madeforme: the media upload pipeline and its helpers, in Dafny

madeforme is a Laravel and React application for publishing posts with attached media. This
project models the logic that carries a media file from the browser to object storage, and the
helpers around it:

- **The upload hook** (`MediaUploader`, `resources/js/hooks/use-media-uploader.ts`). State is
  five collections: the unsigned queue, the pending queue, the processing map, the successful
  list and the failed list. There is also an `error` message and the combined upload map built
  from the five.
  - `Uploader` is a class with one method per state updater: `save`, the reaction to signed
    records, progress, settlement and confirmation.
  - The pure steps are functions: descriptor building, record to pending, the progress
    percentage, the partition of settled transfers and the confirmation ids.
- **The form hook** (`Form`, `resources/js/hooks/use-form.ts`). It holds the HTTP method parser,
  the error bag (`setError`, `clearErrors`, `getError`, `hasErrors`) and the status fields that
  the `submit` callbacks update, as the class `FormState`.
- **The post editor helpers** (`PostCreate`, `resources/js/pages/post/create.tsx`).
  - `slugify` is proved to pass the server's `alpha_dash:ascii` slug rule.
  - Also modelled: `mergeErrors`, the selected-uploads toggle, the "Add New" category handler
    and the category field names.
- **`cn`** (`ClassNames`, `resources/js/utils/classnames.ts`).
- **The structure of `spline`** (`Splines`, `resources/js/utils/splines.ts`). This covers the
  padding `formatPoints` does and which flat-array entries each curve segment reads, over any
  point type.
- **The media library context** (`MediaModal`, `resources/js/Components/MediaModal.tsx`). Its
  parts are the toggle with its callback ref, the pagination updaters and the `useMediaModal`
  guard.
- **The server-side strings.**
  - `FileUploadConfiguration` (`app/Services/GenerateSignedUploadUrl/FileUploadConfiguration.php`)
    holds the disk, the cloud check, the cloud root and the upload path.
  - `SignedRequestService` (`app/Services/SignedRequestService.php`) holds the `putObject`
    arguments, the returned headers, the URL and the object key.
  - Both rest on `Php`. That module holds the PHP value semantics they use: truthiness,
    ordered string-keyed arrays, `array_filter`, `array_merge`, `data_get`, loose `in_array` and
    scalar-to-string coercion.

Outside calls are parameters:

- the network (the sign, transfer and confirm requests), given as their results;
- the React scheduler, with every effect body a method call;
- timers, given as their ids;
- the Flysystem path normaliser;
- the configuration;
- the AWS presigning client.

`Text` and `Wrappers` hold the shared string functions and `Option`/`Result`.

Where the source and its own description disagree, the model follows the source:

- An upload's key is the bare file name (use-media-uploader.ts:79).
- A signed record without a matching file becomes a pending upload whose file is missing
  (lines 169-174).
- Nothing ever inserts into the processing map, so for every key outside
  `ObjectPrototypeNames` a progress update takes the absent-key branch (line 103).
- Signed uploads stay in the unsigned queue. The combined map hides them because later
  collections win (lines 55-66). As a result every later signing request sends them again (see
  Findings).
- The confirmation call sends the ids of every successful upload so far, not only the newest
  ones (line 244).
- A category whose id is 0 is posted by name as "0", because `0` is falsy
  (create.tsx:600-601).

The model also makes these behaviours of the source explicit:

- A closed spline repeats its first segment as its last.
- A closed spline through a single point starts at that point with x and y swapped
  (splines.ts:36-37 read the flat array at positions 2 and 3).
- `isUsingCloud` compares loosely, so a disk whose `driver` is `true` counts as cloud.
- `isUsingCloud` looks the driver up under the lower-cased default disk name, while
  `diskConfig` uses the name as configured.
- Header names are compared case-sensitively when Content-Type and Content-Length are merged
  over the signed headers.

## Model

| member | source | states |
|---|---|---|
| MediaUploader.Combine | resources/js/hooks/use-media-uploader.ts:55-66 | definition of the combined map; its keys and precedence are stated by CombineKeysAndPrecedence, and ComputeUploadMap proves the source loop computes it; keys are own keys, also those in `ObjectPrototypeNames` (see Left out) |
| MediaUploader.IndexLatest | resources/js/hooks/use-media-uploader.ts:63-65 | indexing a run of uploads by key holds exactly their keys, each with the LAST upload bearing it |
| MediaUploader.IndexAppend | resources/js/hooks/use-media-uploader.ts:63-65 | indexing a concatenation is the later run's index overriding the earlier's |
| MediaUploader.CombineKeysAndPrecedence | resources/js/hooks/use-media-uploader.ts:55-66 | the combined map's keys are the union of all five collections' keys, and a key's entry comes from the latest collection holding it (unsigned < pending < processing < successful < failed) |
| MediaUploader.Accumulate | resources/js/hooks/use-media-uploader.ts:63-65 | the reduce loop that assigns `map[upload.key]` ends with the starting map overridden by the run's index; keys are own keys, also those in `ObjectPrototypeNames` (see Left out) |
| MediaUploader.AccumulateProcessing | resources/js/hooks/use-media-uploader.ts:61-65 | folding the processing map in is overriding with that map's entries |
| MediaUploader.Accepted | resources/js/hooks/use-media-uploader.ts:78-82 | definition of the corrected dedup (own keys only); contract in AcceptedAppend, AcceptedMembership and AcceptedFresh |
| MediaUploader.AcceptedAppend | resources/js/hooks/use-media-uploader.ts:78-82 | the accepted files of a concatenation are the accepted files of each part, in order |
| MediaUploader.AcceptedMembership | resources/js/hooks/use-media-uploader.ts:78-82 | an entry is accepted iff its file is among the input, its key is the file's name, and that name is not yet a key of the combined map |
| MediaUploader.SameNameNotDeduped | resources/js/hooks/use-media-uploader.ts:78-82 | two files with the same name in one call are both accepted: dedup is only against the existing map |
| MediaUploader.AcceptedFresh | resources/js/hooks/use-media-uploader.ts:76-86 | at most one entry per file; the accepted keys avoid every existing key, and together with the existing keys they are every input name plus the existing keys |
| MediaUploader.AcceptedAsWritten | resources/js/hooks/use-media-uploader.ts:78-82 | definition of the dedup as written, where a prototype name counts as present; contract in AcceptedAsWrittenMembership and AcceptedAsWrittenFresh |
| MediaUploader.AcceptedAsWrittenMembership | resources/js/hooks/use-media-uploader.ts:78-82 | as written, an entry is accepted iff its file is among the input, its key is the file name, and that name is neither a key of the combined map nor an `Object.prototype` name |
| MediaUploader.AcceptedAsWrittenFresh | resources/js/hooks/use-media-uploader.ts:76-86 | as written, the accepted keys avoid every existing key, and together with the existing keys they are every non-prototype input name plus the existing keys |
| MediaUploader.AcceptedAsWrittenAgrees | resources/js/hooks/use-media-uploader.ts:78-82 | the as-written membership test on a plain object agrees with the intended one unless a file is named like an `Object.prototype` member |
| MediaUploader.PrototypeNameDropped | resources/js/hooks/use-media-uploader.ts:78-82 | a file named "constructor" is silently dropped as written, and accepted by the corrected reading |
| MediaUploader.BuildDescriptors | resources/js/hooks/use-media-uploader.ts:148-165 | definition of the descriptor list and file map; contract in DescriptorsInOrder and FileMapLatest |
| MediaUploader.DescriptorsInOrder | resources/js/hooks/use-media-uploader.ts:148-165 | exactly one `{key, type, size}` descriptor per unsigned upload, in the same order |
| MediaUploader.FileMapLatest | resources/js/hooks/use-media-uploader.ts:148-165 | the file map holds exactly the batch's keys, each mapped to the file of the last upload with that key |
| MediaUploader.ToPending | resources/js/hooks/use-media-uploader.ts:169-174 | definition of record to pending upload; contract in ToPendingSpec; keys are own keys, also those in `ObjectPrototypeNames` (see Left out) |
| MediaUploader.ToPendingSpec | resources/js/hooks/use-media-uploader.ts:169-174 | one pending upload per signed record, in order, keeping its id, key, url and headers, in state pending, with the batch's file for that key or none when no upload had the key; keys are own keys, also those in `ObjectPrototypeNames` (see Left out) |
| MediaUploader.PercentCompleted | resources/js/hooks/use-media-uploader.ts:203-205 | as written: 0 when the total is 0 or missing, always a multiple of 100, 0 until everything is loaded and then exactly 100, never above 100 while loaded <= total |
| MediaUploader.PercentIntended | resources/js/hooks/use-media-uploader.ts:203-205 | the corrected percentage is the floor of loaded*100/total, within 0..100, and 100 exactly at completion |
| MediaUploader.PercentFloorsTooEarly | resources/js/hooks/use-media-uploader.ts:203-205 | half-way through, the percentage as written reports 0 where 50 is intended |
| MediaUploader.PercentIntendedMonotone | resources/js/hooks/use-media-uploader.ts:203-205 | the corrected percentage never goes down as more bytes load |
| MediaUploader.Partition | resources/js/hooks/use-media-uploader.ts:224-234 | the push loop yields the fulfilled values and the rejected reasons, each in input order |
| MediaUploader.PartitionCounts | resources/js/hooks/use-media-uploader.ts:224-234 | the two lists' lengths add up to the number of settled results |
| MediaUploader.PartitionAppend | resources/js/hooks/use-media-uploader.ts:224-234 | partitioning distributes over concatenation, so the order of results is kept in both lists |
| MediaUploader.PartitionOfOutcomes | resources/js/hooks/use-media-uploader.ts:197-234 | an upload is in the successful list iff some transfer of it succeeded and it is the input with state successful (likewise failed) |
| MediaUploader.SuccessCount | resources/js/hooks/use-media-uploader.ts:197-234 | there are as many successful uploads as transfers that succeeded |
| MediaUploader.RemoveSettled | resources/js/hooks/use-media-uploader.ts:109-113 | copying the processing map and deleting each settled key removes exactly the settled keys and keeps every other entry |
| MediaUploader.ConfirmIds | resources/js/hooks/use-media-uploader.ts:244 | one id per successful upload, in list order |
| MediaUploader.ConfirmIdsAppend | resources/js/hooks/use-media-uploader.ts:244 | the ids of a concatenation are the ids of each part, in order |
| MediaUploader.SaveEffect | resources/js/hooks/use-media-uploader.ts:76-86 | as written, after `save` the combined map has every old key with its old entry plus every input name that is not an `Object.prototype` name |
| MediaUploader.SaveEffectOwnKeys | resources/js/hooks/use-media-uploader.ts:76-86 | corrected: after `save` the combined map has every old key with its old entry plus every input name |
| MediaUploader.SettledKeys | resources/js/hooks/use-media-uploader.ts:107-119 | the settled uploads carry exactly the batch's keys |
| MediaUploader.SettledStates | resources/js/hooks/use-media-uploader.ts:197-234 | every successful entry is in state successful and every failed entry in state failed |
| MediaUploader.WithoutKeys | resources/js/hooks/use-media-uploader.ts:88-96 | definition of the corrected drain; contract in WithoutKeysMembers and WithoutKeysAppend |
| MediaUploader.WithoutKeysMembers | resources/js/hooks/use-media-uploader.ts:88-96 | an upload stays queued after the corrected drain iff it was queued and its key was not signed |
| MediaUploader.WithoutKeysAppend | resources/js/hooks/use-media-uploader.ts:88-96 | the drain distributes over concatenation, so the uploads left keep their queue order |
| MediaUploader.Uploader.constructor | resources/js/hooks/use-media-uploader.ts:42-53 | all five collections start empty and there is no error |
| MediaUploader.Uploader.ComputeUploadMap | resources/js/hooks/use-media-uploader.ts:55-66 | the combined map, built by the source's loop, equals the map the specification folds |
| MediaUploader.Uploader.Uploads | resources/js/hooks/use-media-uploader.ts:130 | definition: the entries of the combined map, as a set (the order is left out) |
| MediaUploader.Uploader.Save | resources/js/hooks/use-media-uploader.ts:76-86 | as written: the files `AcceptedAsWritten` keeps are appended to the unsigned queue in input order and nothing else changes; the combined map gains every non-prototype input name and keeps every old entry |
| MediaUploader.Uploader.SaveOwnKeys | resources/js/hooks/use-media-uploader.ts:76-86 | corrected: only own keys of the combined map are dropped, and the map gains every input name and keeps every old entry |
| MediaUploader.Uploader.OnSigned | resources/js/hooks/use-media-uploader.ts:88-96 | as written: the pending uploads of the records are appended and the unsigned queue is left as it was; a thrown failure sets the error message and leaves the queues alone |
| MediaUploader.Uploader.OnSignedDraining | resources/js/hooks/use-media-uploader.ts:88-96 | corrected: on success the signed keys also leave the unsigned queue |
| MediaUploader.Uploader.OnProgress | resources/js/hooks/use-media-uploader.ts:100-105 | only the given key's progress changes, and the map is unchanged when the key is absent; keys are own keys, also those in `ObjectPrototypeNames` (see Left out) |
| MediaUploader.Uploader.Settle | resources/js/hooks/use-media-uploader.ts:107-119 | results are appended to the successful and failed lists, exactly the batch's keys leave the processing map, the pending queue empties, and the confirmation ids grow by the new successes |
| MediaUploader.Uploader.ConfirmPayload | resources/js/hooks/use-media-uploader.ts:240-246 | the payload is the id of every successful upload, in list order |
| MediaUploader.Uploader.OnConfirmFailed | resources/js/hooks/use-media-uploader.ts:245-252 | a failed confirmation only sets the error message |
| MediaUploader.FirstRound | resources/js/hooks/use-media-uploader.ts:76-128 | one file through save, signing, transfer and settlement: the first request describes that file and the upload ends successful |
| MediaUploader.ResignScenario | resources/js/hooks/use-media-uploader.ts:88-96 | as written, the second signing request describes the already-uploaded file again |
| MediaUploader.ResignScenarioCorrected | resources/js/hooks/use-media-uploader.ts:88-96 | with the drain, the second request describes only the new file |
| Form.ParseMethod | resources/js/hooks/use-form.ts:226-242 | the result is "get" exactly when the lower-cased input is none of post, put, patch and delete |
| Form.ParseMethodNames | resources/js/hooks/use-form.ts:226-242 | every casing of a method name parses to that method |
| Form.ParseMethodSound | resources/js/hooks/use-form.ts:226-242 | a non-get result is what the input names, case-insensitively |
| Form.ParseMethodRoundTrip | resources/js/hooks/use-form.ts:226-242 | each method's own name parses back to it |
| Form.ErrorsAfterSetAsWritten | resources/js/hooks/use-form.ts:188-195 | definition of `setError` as written; compared with the corrected reading by SetErrorReadingsAgree and EmptyMessageSpreadsName; a "__proto__" field is stored as an own key (see Left out) |
| Form.ErrorsAfterSet | resources/js/hooks/use-form.ts:188-199 | a field update sets that field's message and keeps every other entry; a record is merged over the errors with its values winning |
| Form.CharIndexEntriesSpec | resources/js/hooks/use-form.ts:188-195 | spreading a string yields one entry per character position, keyed by the decimal index |
| Form.SetErrorReadingsAgree | resources/js/hooks/use-form.ts:188-195 | as written and corrected agree except for a field update with an empty message |
| Form.EmptyMessageSpreadsName | resources/js/hooks/use-form.ts:188-195 | `setError("ab", "")` as written stores "0" -> "a" and "1" -> "b" instead of clearing "ab" |
| Form.Cleared | resources/js/hooks/use-form.ts:200-216 | with no field every error goes; otherwise exactly the named fields go and the others keep their messages |
| Form.ClearFoldIsCleared | resources/js/hooks/use-form.ts:202-212 | the reduce over the error keys computes that result |
| Form.ClearedKeepsUnnamed | resources/js/hooks/use-form.ts:200-216 | an existing error survives iff its field is not named |
| Form.ErrorFor | resources/js/hooks/use-form.ts:177-179 | definition of what `getError` reads; contract in GetAfterSetField, GetAfterSetRecord and GetAfterClear |
| Form.GetAfterSetField | resources/js/hooks/use-form.ts:177-195 | after `setError(name, message)` with a non-empty message `getError(name)` is that message and other fields read as before; corrected, for any message |
| Form.GetAfterSetRecord | resources/js/hooks/use-form.ts:177-195 | after `setError(record)` a field reads the record's message where it has one and its old message otherwise |
| Form.GetAfterClear | resources/js/hooks/use-form.ts:177-216 | after `clearErrors` a named field, or any field when none is named, reads as absent; an unnamed field reads as before |
| Form.FormState.constructor | resources/js/hooks/use-form.ts:34-45 | no errors, idle, no progress, no success flags, no token and no timer |
| Form.FormState.SetMounted | resources/js/hooks/use-form.ts:47-52 | the mount flag follows the effect |
| Form.FormState.GetError | resources/js/hooks/use-form.ts:177-179 | returns what the current bag holds for the field; GetAfterSetField, GetAfterSetRecord and GetAfterClear say what that is after each update |
| Form.FormState.SetError | resources/js/hooks/use-form.ts:188-199 | as written: the errors become `ErrorsAfterSetAsWritten` of the old bag and `hasErrors` holds iff the bag is non-empty; a "__proto__" field is stored as an own key (see Left out) |
| Form.FormState.SetErrorIntended | resources/js/hooks/use-form.ts:188-199 | corrected: the errors become `ErrorsAfterSet` of the old bag and `hasErrors` holds iff the bag is non-empty |
| Form.FormState.ClearErrors | resources/js/hooks/use-form.ts:200-216 | the errors become the cleared result and `hasErrors` holds iff the bag is non-empty |
| Form.FormState.OnCancelToken | resources/js/hooks/use-form.ts:59-61 | the token is remembered |
| Form.FormState.Cancel | resources/js/hooks/use-form.ts:218-222 | returns the remembered token, the one `cancel` would cancel; CancelDuringVisit shows which token that is |
| Form.FormState.OnBefore | resources/js/hooks/use-form.ts:66-72 | both success flags drop and the last success timer is disarmed |
| Form.FormState.OnStart | resources/js/hooks/use-form.ts:77-80 | the form is processing |
| Form.FormState.OnProgress | resources/js/hooks/use-form.ts:85-88 | a present event replaces the progress and an absent one is ignored |
| Form.FormState.OnSuccess | resources/js/hooks/use-form.ts:94-111 | when mounted: idle, no progress, no errors, both success flags set and a timer armed; when unmounted nothing changes |
| Form.FormState.OnTimer | resources/js/hooks/use-form.ts:104-108 | an armed timer disarms and, while mounted, drops `recentlySuccessful`; any other timer changes nothing |
| Form.FormState.OnError | resources/js/hooks/use-form.ts:117-124 | when mounted: idle, no progress, the server's errors and `hasErrors`; unmounted nothing changes |
| Form.FormState.OnCancel | resources/js/hooks/use-form.ts:130-134 | when mounted: idle and no progress |
| Form.FormState.OnFinish | resources/js/hooks/use-form.ts:140-146 | the token is dropped; when mounted the form is also idle with no progress |
| Form.SuccessfulVisit | resources/js/hooks/use-form.ts:66-146 | a mounted form's successful visit ends idle, error free, successful and without a token; the timer then drops only the "recently" flag |
| Form.FailedVisit | resources/js/hooks/use-form.ts:66-146 | a mounted form's failed visit ends idle, with the server's errors and not successful |
| Form.CancelDuringVisit | resources/js/hooks/use-form.ts:59-61 | during a visit `cancel` reaches the token the router handed over; after `onFinish` it reaches none |
| PostCreate.Slugify | resources/js/pages/post/create.tsx:885-891 | definition of `slugify`; contract in SlugifyShape, SlugifyPassesAlphaDash, SlugifyIdempotent and SlugifyEmptyIff |
| PostCreate.Collapse | resources/js/pages/post/create.tsx:889 | the replaced string keeps only word characters and single hyphens, is empty iff its input is, and starts with a hyphen iff the input starts with a non-word character |
| PostCreate.SlugifyShape | resources/js/pages/post/create.tsx:885-891 | a slug has only lower-case ASCII letters, digits, `_` and single hyphens, and neither starts nor ends with a hyphen |
| PostCreate.SlugifyPassesAlphaDash | resources/js/pages/post/create.tsx:885-891 | a non-empty slug passes the `alpha_dash:ascii` rule |
| PostCreate.SlugifyIdempotent | resources/js/pages/post/create.tsx:885-891 | slugifying a slug changes nothing |
| PostCreate.SlugifyEmptyIff | resources/js/pages/post/create.tsx:885-891 | the slug is empty exactly when the text has no word character |
| PostCreate.Messages | resources/js/pages/post/create.tsx:894 | the kept messages are non-empty messages of the bag, at most one per key |
| PostCreate.MessagesAppend | resources/js/pages/post/create.tsx:894 | the messages of a concatenation of keys are each part's messages, in key order |
| PostCreate.MergeErrors | resources/js/pages/post/create.tsx:893-895 | definition of `mergeErrors`; contract in MergeErrorsEmptyIff and MergeTwo |
| PostCreate.MergeErrorsEmptyIff | resources/js/pages/post/create.tsx:893-895 | the merged string is empty exactly when no key has a non-empty message |
| PostCreate.MergeTwo | resources/js/pages/post/create.tsx:893-895 | two present messages are joined by ". " in key order |
| PostCreate.Toggled | resources/js/pages/post/create.tsx:774-783 | a selected key is removed, an unselected one added with that upload, and every other key unchanged; keys are own keys, also those in `ObjectPrototypeNames` (see Left out) |
| PostCreate.ToggleTwice | resources/js/pages/post/create.tsx:774-783 | toggling the same upload twice restores the selection |
| PostCreate.UploadPicker.Toggle | resources/js/pages/post/create.tsx:770-783 | the click on a successful upload replaces the selection by its toggle |
| PostCreate.CategoryEditor.constructor | resources/js/pages/post/create.tsx:54-60 | no new categories; the field starts open exactly when there is no category |
| PostCreate.CategoryEditor.Type | resources/js/pages/post/create.tsx:217-219 | typing sets the field's text |
| PostCreate.CategoryEditor.Open | resources/js/pages/post/create.tsx:245-249 | the button opens an empty field |
| PostCreate.CategoryEditor.AddNew | resources/js/pages/post/create.tsx:226-237 | a non-empty name is appended and the field closes; otherwise nothing changes |
| PostCreate.CategoryFields | resources/js/pages/post/create.tsx:599-610 | a truthy id names the checkbox field `[id]`; otherwise `[name]` with the label and a hidden `[slug]` with its slug, id 0 posting "0" as the name |
| PostCreate.ExistingFieldsOrdered | resources/js/pages/post/create.tsx:192-198 | existing categories take indices 0.. in order |
| PostCreate.AddedFieldsOrdered | resources/js/pages/post/create.tsx:199-205 | new categories take the indices after the existing ones, in order |
| PostCreate.CategoryFormDistinctNames | resources/js/pages/post/create.tsx:192-205 | no two fields of the form share a name |
| PostCreate.FieldNamesInjective | resources/js/pages/post/create.tsx:600-607 | `categories[i][part]` names determine their index and part |
| ClassNames.Cn | resources/js/utils/classnames.ts:4-6 | definition of `cn`; contract in CnIsJoin, FalsyDiscarded, AllFalsyEmpty, Single and NoAddedLeadingSpace |
| ClassNames.Kept | resources/js/utils/classnames.ts:5 | every kept string is non-empty, at most one per argument |
| ClassNames.CnIsJoin | resources/js/utils/classnames.ts:4-6 | `cn` is the truthy strings joined by single spaces, in argument order |
| ClassNames.FalsyDiscarded | resources/js/utils/classnames.ts:5 | removing any falsy argument does not change the result |
| ClassNames.AllFalsyEmpty | resources/js/utils/classnames.ts:4-6 | no argument, or only falsy ones, gives "" |
| ClassNames.Single | resources/js/utils/classnames.ts:4-6 | one non-empty class name comes back unchanged |
| ClassNames.NoAddedLeadingSpace | resources/js/utils/classnames.ts:6 | the result starts with the first kept string's first character: the accumulator's space is removed |
| Splines.FlatSomes | resources/js/utils/splines.ts:20 | flattening present points gives x0, y0, x1, y1, .. |
| Splines.FormatPoints | resources/js/utils/splines.ts:3-21 | open: the flattening of the points (length 2n); closed with n >= 2: the flattening of the padding (length 2n+8); closed with fewer points: holes where the missing neighbours are read |
| Splines.OpenCurve | resources/js/utils/splines.ts:47-58 | an open segment runs from point k to point k+1, with the first and last segments reusing their own endpoint as outer neighbour |
| Splines.ClosedCurve | resources/js/utils/splines.ts:47-58 | a closed segment reads four consecutive points of the padding |
| Splines.OpenSegments | resources/js/utils/splines.ts:47-58 | the open loop's segments run from each point to the next, the first starting at p0, and the first and last reuse their own endpoint as outer neighbour |
| Splines.ClosedSegments | resources/js/utils/splines.ts:47-58 | the closed loop's segments start at p(n-1), run around the ring back to p0, and the last one repeats the first |
| Splines.Spline | resources/js/utils/splines.ts:23-72 | the start point, n-1 open or n+1 closed segments (n when fewer than two points close), every read in bounds, each segment starting where the previous ended and ending at the next point, a closed path back at p0 and its last segment equal to its first |
| MediaModal.ToggleStep | resources/js/Components/MediaModal.tsx:66-69 | the modal flips and the callback is held exactly when it is now open |
| MediaModal.Appended | resources/js/Components/MediaModal.tsx:55 | a present page is appended after the existing media, in order; an absent one changes nothing |
| MediaModal.Prepended | resources/js/Components/MediaModal.tsx:92-94 | only a result with a non-empty path is put in front |
| MediaModal.FetchesAccumulate | resources/js/Components/MediaModal.tsx:51-57 | a run of fetches leaves the old media followed by every returned page, oldest first |
| MediaModal.ToggleTwice | resources/js/Components/MediaModal.tsx:63-71 | from the closed state, one toggle opens holding the callback and a second closes holding none |
| MediaModal.MediaProvider.constructor | resources/js/Components/MediaModal.tsx:38-41 | no media, no cursor, closed and no callback |
| MediaModal.MediaProvider.Toggle | resources/js/Components/MediaModal.tsx:63-71 | the modal flips, the ref holds the callback iff open, and the list and cursor are untouched |
| MediaModal.MediaProvider.OnFetchSuccess | resources/js/Components/MediaModal.tsx:51-57 | the page is appended and the cursor becomes `next_cursor`, or null when missing |
| MediaModal.MediaProvider.OnUploadResult | resources/js/Components/MediaModal.tsx:91-94 | only a non-empty path is prepended; nothing else changes |
| MediaModal.UseMediaModal | resources/js/Components/MediaModal.tsx:26-33 | outside a provider the hook fails with its message; inside it hands back that provider's toggle |
| MediaModal.OpenThenClose | resources/js/Components/MediaModal.tsx:26-71 | the hook's toggle opens with the callback and then closes without it |
| Php.Get | app/Services/SignedRequestService.php:91-97 | a key is found iff present, and what is found is that key's entry |
| Php.GetDistinct | app/Services/SignedRequestService.php:91-97 | in an array each key's entry is the one found |
| Php.ArrayFilter | app/Services/SignedRequestService.php:75-83 | definition of `array_filter`; contract in FilterMembers, FilterAppend and FilterSingle |
| Php.FilterMembers | app/Services/SignedRequestService.php:75-83 | an entry survives iff it is an entry with a truthy value, and no key is invented |
| Php.FilterAppend | app/Services/SignedRequestService.php:75-83 | filtering distributes over concatenation, so the surviving entries keep their order |
| Php.FilterSingle | app/Services/SignedRequestService.php:75-83 | one entry survives iff its value is truthy |
| Php.FilterGet | app/Services/SignedRequestService.php:93-96 | a key keeps its value after filtering iff that value is truthy |
| Php.PutSpec | app/Services/SignedRequestService.php:91-97 | storing overwrites an existing key in place or appends a new one; no other key changes |
| Php.MergeGet | app/Services/SignedRequestService.php:91-97 | after a merge every key of either array is present, the later array wins, and the earlier array's keys keep their places |
| Php.DataGet | app/Services/SignedRequestService.php:34 | the stored value when the key exists, the default otherwise |
| Php.LooseEqualsNonNumeric | app/Services/GenerateSignedUploadUrl/FileUploadConfiguration.php:48 | a value is loosely equal to a non-numeric string iff it is that string or `true` |
| Php.StringArg | app/Services/GenerateSignedUploadUrl/FileUploadConfiguration.php:51-54 | null and arrays are refused and a string passes unchanged |
| FileUploadConfiguration.Disk | app/Services/GenerateSignedUploadUrl/FileUploadConfiguration.php:30-37 | the test disk under unit tests, the configured default otherwise |
| FileUploadConfiguration.DiskConfig | app/Services/GenerateSignedUploadUrl/FileUploadConfiguration.php:39-42 | definition: the configuration of `disk()`; DiskNamed states the unknown-disk case |
| FileUploadConfiguration.DiskNamed | app/Services/GenerateSignedUploadUrl/FileUploadConfiguration.php:39-42 | an unknown disk's configuration is null |
| FileUploadConfiguration.Driver | app/Services/GenerateSignedUploadUrl/FileUploadConfiguration.php:48 | a non-null driver is the `driver` entry of an array configuration |
| FileUploadConfiguration.IsUsingCloud | app/Services/GenerateSignedUploadUrl/FileUploadConfiguration.php:44-49 | cloud iff the lower-cased default disk's driver is "s3", "r2" or `true` |
| FileUploadConfiguration.CloudRoot | app/Services/GenerateSignedUploadUrl/FileUploadConfiguration.php:61-76 | "" off the cloud, for a non-array configuration or a null root; the normalised root otherwise; an array root fails |
| FileUploadConfiguration.Directory | app/Services/GenerateSignedUploadUrl/FileUploadConfiguration.php:56-59 | definition: "media-tmp" normalised; EmptyPathIsDirectory and PathIsJoin place it in the path |
| FileUploadConfiguration.Path | app/Services/GenerateSignedUploadUrl/FileUploadConfiguration.php:78-85 | without the bucket root the path always exists |
| FileUploadConfiguration.PathIsJoin | app/Services/GenerateSignedUploadUrl/FileUploadConfiguration.php:78-85 | the corrected path is the non-empty prefix, the directory and the non-empty path joined by "/" |
| FileUploadConfiguration.PathAsWritten | app/Services/GenerateSignedUploadUrl/FileUploadConfiguration.php:78-85 | definition of `path` as written; compared with the corrected Path by PathReadingsAgree and ZeroPathGlued |
| FileUploadConfiguration.PathWithoutRoot | app/Services/GenerateSignedUploadUrl/FileUploadConfiguration.php:80-84 | without the root the path is the directory, or the directory, "/" and the path |
| FileUploadConfiguration.EmptyPathIsDirectory | app/Services/GenerateSignedUploadUrl/FileUploadConfiguration.php:56-59 | `path('')` with an empty cloud root is the directory, in both readings |
| FileUploadConfiguration.PathReadingsAgree | app/Services/GenerateSignedUploadUrl/FileUploadConfiguration.php:84 | as written and corrected agree unless the root or the path is exactly "0" |
| FileUploadConfiguration.ZeroPathGlued | app/Services/GenerateSignedUploadUrl/FileUploadConfiguration.php:84 | as written `path('0', false)` is "media-tmp0"; corrected it is "media-tmp/0" |
| SignedRequestService.NewService | app/Services/SignedRequestService.php:12-16 | a service exists iff the default disk's configuration is an array, and it holds that array |
| SignedRequestService.BuildUrl | app/Services/SignedRequestService.php:100-103 | definition of `buildUrl`; contract in BuildUrlRoundTrip and BuildUrlHasQueryMark |
| SignedRequestService.BuildUrlRoundTrip | app/Services/SignedRequestService.php:100-103 | a URL built from a well-formed URI parses back to the same scheme, authority, path and query |
| SignedRequestService.BuildUrlHasQueryMark | app/Services/SignedRequestService.php:100-103 | the "?" is written even for an empty query, right before it |
| SignedRequestService.GetKey | app/Services/SignedRequestService.php:108-111 | definition of `getKey`; contract in KeyRoundTrip |
| SignedRequestService.KeyRoundTrip | app/Services/SignedRequestService.php:108-111 | keys are "tmp/" and the id, and key and id determine each other |
| SignedRequestService.Headers | app/Services/SignedRequestService.php:89-98 | definition of `headers()`; contract in HeadersGet |
| SignedRequestService.HeadersGet | app/Services/SignedRequestService.php:89-98 | every signed header keeps its place; Content-Type and Content-Length take a truthy argument and keep the signed value otherwise; no other header changes |
| SignedRequestService.CommandArgs | app/Services/SignedRequestService.php:73-84 | definition of the `putObject` arguments; contract in CommandArgsFixed, CommandArgsInputs and CommandArgsDisk |
| SignedRequestService.CommandArgsFixed | app/Services/SignedRequestService.php:75-83 | CacheControl is dropped, Expires is "+15 minutes", at most six arguments remain |
| SignedRequestService.CommandArgsInputs | app/Services/SignedRequestService.php:75-83 | Key, ContentType and Metadata are the inputs when truthy and are dropped otherwise |
| SignedRequestService.CommandArgsDisk | app/Services/SignedRequestService.php:75-83 | Bucket is the disk's bucket and ACL its visibility, "private" when it has none |
| SignedRequestService.FilterDropsOne | app/Services/SignedRequestService.php:75-83 | a falsy field makes the argument list shorter |
| SignedRequestService.Handle | app/Services/SignedRequestService.php:18-39 | the key comes back unchanged with the disk's bucket; the URL is `buildUrl` of the signed URI and parses back to it; the headers are the merged headers, with Content-Type and Content-Length taken from the arguments when truthy and every signed header present |

## Left out

- Network I/O (the sign, transfer and confirm requests, the media fetch and upload requests, `fetch` and Inertia visits) is outside the model. Their outcomes are inputs: the records, a success flag per transfer and the thrown value.
- React scheduling is not modelled: effect re-runs, `useMemo` caching, `Promise.allSettled` interleaving and double updater calls under StrictMode. Each effect body is one method call, made in an order the caller chooses.
- `setTimeout` and `clearTimeout` are not modelled as time. A timer is an id chosen by the caller, and its firing is a method call.
- The spline control-point arithmetic (splines.ts:60-66) and the SVG path string are floating point. They are left out, and only the entries each segment reads are modelled. The optional `debug` callback (splines.ts:29, 41, 68) is left out too: it only receives the "MOVE" and "CURVE" values, and it does not change the path.
- The Flysystem path normaliser, the Laravel configuration and the AWS presigning client are parameters. Their own rules are not modelled. SignedRequestService.ExpiryPhrase takes `url_expires_after` as an optional whole number, so a key that is present with a null value is not modelled. For that key `config('storage.uploads.url_expires_after', 60)` (app/Services/SignedRequestService.php:20) returns null rather than 60, and `sprintf` then writes "+ minutes".
- `temporaryUrl` and `client` of SignedRequestService are not modelled: they build AWS SDK objects.
- `GenerateSignedUploadUrl` and the other controllers, requests and models are outside the core.
- Config dot paths are taken as plain keys, so a disk name containing "." is not split the way `config()` splits it.
- Php.ArrayMerge: integer keys are not renumbered. Every array merged in this core has string keys.
- Php.Value leaves out floats and objects.
- PostCreate.Slugify lower-cases ASCII letters only. A non-ASCII capital whose lower case is ASCII (the Kelvin sign) becomes a hyphen here, where `toLowerCase` would give a letter.
- Text.AsciiLower is also what `strtolower` and `toLowerCase` become in Form.ParseMethod and FileUploadConfiguration.IsUsingCloud. Non-ASCII case folding is not modelled.
- Form.ErrorsAfterSetAsWritten: a field named "__proto__" is stored as an own key. In the source, `newErrors["__proto__"] = maybeValue` (use-form.ts:192) calls the setter inherited from `Object.prototype`, which ignores a string, so nothing is stored. `Object.assign` at line 194 does the same for a record with an own "__proto__" key. The other names in `ObjectPrototypeNames` are stored as own keys in the source too.
- Form.FormState.SetError: the same as Form.ErrorsAfterSetAsWritten. For a "__proto__" field the model stores the entry and counts it in `hasErrors`, while `Object.keys` at line 196 would count only the other keys.
- `getError` and `mergeErrors` index plain objects. A field named like an `Object.prototype` member is treated as absent rather than as that member.
- MediaModal.MediaData: a record without a `path` is modelled with the empty path. That is the falsy case the upload updater tests.
- The form key, `setData`/`reset` and the forwarding to the caller's own `submit` callbacks are not part of the form model.
- MediaUploader.Uploader.Uploads: the snapshot is a set, so the order of `Object.values(uploadMap)` (use-media-uploader.ts:130) is not modelled. That order lists integer-like keys first, ascending, then the other keys in insertion order.
- The `console.log` calls are not modelled because they only write to the console. They are in `onStart`, `onSuccess` and `onError` (use-form.ts:78, 95, 118), in `submit` (lines 158-163) and in the default branch of `parseMethod` (line 239).
- A `setError(field)` call without a message is modelled as a field call with the empty message: both are falsy at use-form.ts:191 and take the same branch.
- MediaUploader.Combine: a key in `ObjectPrototypeNames` is treated as an own key. At use-media-uploader.ts:64 the assignment `map["__proto__"] = upload` sets the object's prototype and adds no entry, so `Object.values` would not list that upload. Only server-chosen record keys can reach this line with such a name, because `save` already drops them.
- MediaUploader.Accumulate: the same as Combine. The loop body at use-media-uploader.ts:64 is modelled as an own-key store, also for a key in `ObjectPrototypeNames`.
- MediaUploader.ToPending: a record key in `ObjectPrototypeNames` is looked up as an own key at use-media-uploader.ts:172. For a key such as "toString" that no file of the batch has, the source finds the inherited function, and the model gives no file.
- MediaUploader.ToPendingSpec: "no file when no upload of the batch had the key" holds here for every key. In the source it holds only for keys outside `ObjectPrototypeNames`, for the reason given under ToPending.
- MediaUploader.Uploader.OnProgress: a key in `ObjectPrototypeNames` is looked up as an own key at use-media-uploader.ts:102. For "constructor" the source finds `Object`, which is truthy, and inserts `{progress}` under that key; the model leaves the map unchanged.
- PostCreate.Toggled: a key in `ObjectPrototypeNames` is looked up as an own key at create.tsx:776. For "constructor" `prev[key]` is truthy, so the source deletes a missing entry and never selects that upload; the model adds it.
- PostCreate.CategoryFields: the names of the fields are modelled, not what the browser submits. The checkbox field `[id]` (create.tsx:599-603) is submitted only while it is checked, while the hidden `[slug]` input (lines 604-609) is always submitted.
- The zod validation of signed records (use-media-uploader.ts:135-142) is taken as done: records enter as already-validated values.

## Findings

| source | as written | input that shows it | evidently intended | confidence | as-written member | corrected member |
|---|---|---|---|---|---|---|
| resources/js/hooks/use-media-uploader.ts:78-82 | `uploadMap[file.name]` on a plain object also finds inherited members | a file named "constructor" is dropped by `save` | only uploads already in the map are skipped | not executed; medium (depends on the map being a plain object literal) | MediaUploader.PrototypeNameDropped | MediaUploader.AcceptedMembership |
| resources/js/hooks/use-media-uploader.ts:88-96 | signed uploads are never removed from the unsigned queue | save file a, let it sign and upload, then save file b: the second signing request describes a and b | each file is signed once | not executed; high | MediaUploader.ResignScenario | MediaUploader.ResignScenarioCorrected |
| resources/js/hooks/use-form.ts:188-195 | the field form is recognised only when the message is truthy; otherwise the name is spread into the errors | `setError("ab", "")` stores "0" -> "a" and "1" -> "b" | the field gets the empty message | not executed; medium | Form.EmptyMessageSpreadsName | Form.ErrorsAfterSet |
| resources/js/hooks/use-media-uploader.ts:203-205 | the quotient is floored before it is multiplied by 100 | 1 of 2 bytes loaded reports 0% | the percentage loaded, 50% | not executed; high | MediaUploader.PercentFloorsTooEarly | MediaUploader.PercentIntendedMonotone |
| app/Services/GenerateSignedUploadUrl/FileUploadConfiguration.php:84 | the separators follow PHP truthiness, and "0" is falsy | `path('0', false)` gives "media-tmp0" | "media-tmp/0" | not executed; low (a file named "0" is unusual) | FileUploadConfiguration.ZeroPathGlued | FileUploadConfiguration.PathIsJoin |
