# Pharmaceutical document upload — a Dafny model

This project models the client-side logic of a document-upload web app used in a pharmaceutical lab. The app has two front ends.

- **JavaScript app** (`App.jsx`, `FileUploadLayout.jsx`, `useFileUpload.js`, `JsonDataTable.jsx`, `addToSheet.js`):
  - An upload form turns the selected or dropped files into records, classified as `image` or by their content-type subtype.
  - The app keeps a list of these records and removes them by name.
  - A two-pane layout shows the text extracted for a selected image.
  - A hook keeps one preview per file. It also keeps three dictionaries keyed by file name: extracted text, in-flight flags and extraction errors.
  - An editable table loads the structured extraction, an array of three sections (`metadata`, `mixingStep`, `phAdjustment`). The user edits one field at a time. The table then publishes the sections to a spreadsheet web app as form fields.
- **TypeScript app** (`App.tsx`, `FileUpload.tsx`):
  - It admits one file of at most 5 MiB, runs text detection on images and appends an upload record.
  - It toggles which record's text is shown.
  - A drag-and-drop card keeps a chosen file and its preview, and runs a simulated progress bar that climbs in steps of 10.

## How each part is modelled

- **Pure logic** is written as functions with contracts. This covers content-type classification, the `split('/')` it relies on, the record builders, the form builder and reply interpretation, and the state updates of the table.
- **Components and the hook** are classes. Their React state is held in fields, and each handler is a `modifies this` method. The one exception is `UploadLayout.Layout.UploadFromPanel`, which is `modifies app`: it forwards the files to the app's handler and leaves the layout alone. Each method's `ensures` gives every field of the new state in terms of the old state and the specification functions.
- **JavaScript value semantics** are written out explicitly:
  - truthiness and `||`;
  - `arr[i]` past the end gives `undefined`;
  - object spread;
  - `${n}` for a natural number below 10^21, the range in which JavaScript prints plain digits.
- **The network, the clock, the file reader and `URL.createObjectURL`** are not modelled as such. Their results are parameters:
  - the text-detection outcome;
  - the spreadsheet reply;
  - the ISO timestamp and millisecond clock;
  - the data URL and the object URLs. The object URLs are indexed by selection position.

Modules:

| file | module | models |
|---|---|---|
| js_values.dfy | `JsValues` | JSON-like values, truthiness, `\|\|`, spread, number-to-string |
| mime_types.dfy | `MimeTypes` | `startsWith('image/')`, `split('/')` and `join`, the record `type` rule |
| files.dfy | `Files` | file handles, the drop handlers' `DataTransfer` copy, the remove-by-name filter |
| sheet_client.dfy | `SheetClient` | `addToSheet` |
| json_data_table.dfy | `JsonDataTable` | `JsonDataTable` |
| file_upload_hook.dfy | `FileUploadHook` | `useFileUpload` |
| file_workspace.dfy | `FileWorkspace` | `App.jsx` (upload form and record list) |
| upload_layout.dfy | `UploadLayout` | `FileUploadLayout` |
| document_uploader.dfy | `DocumentUploader` | `App.tsx` |
| drop_zone.dfy | `DropZone` | `FileUpload.tsx` |

## Model

| member | source | states |
|---|---|---|
| JsValues.OrLaws | src/components/JsonDataTable.jsx:226-228 | `a \|\| b` is truthy exactly when either side is, a truthy left side is kept and a falsy one dropped, chains of `\|\|` group either way, and `a \|\| a` is `a` |
| JsValues.NatToString | src/lib/addToSheet.js:38 | a status code prints as a non-empty string of decimal digits with no leading zero, one digit exactly for values below 10 |
| JsValues.NatToStringRoundTrip | src/lib/addToSheet.js:38 | reading the printed digits back as a decimal number gives the number |
| JsValues.NatToStringInjective | src/lib/addToSheet.js:38 | different numbers print differently |
| JsValues.IndexKeyed | src/components/JsonDataTable.jsx:244 | the properties of an array hold element `i` under the key `${i}` for every index |
| JsValues.IndexKeyedKeys | src/components/JsonDataTable.jsx:244 | an array's properties have no other keys: each is the canonical decimal form of an index below the length |
| JsValues.Spread | src/components/JsonDataTable.jsx:244 | `{...v}` copies an object's fields, an array's elements or a string's characters under their decimal indices and nothing else, and gives `{}` for `null`, `undefined`, booleans and numbers |
| MimeTypes.Split | src/hooks/useFileUpload.js:87 | `split('/')` gives at least one piece and no piece contains `/`. There is a single piece exactly when the string holds no `/` |
| MimeTypes.JoinSplit | src/hooks/useFileUpload.js:87 | joining the pieces of a split with `/` gives back the original content type |
| MimeTypes.SplitWithoutSeparator | src/hooks/useFileUpload.js:87 | a content type without `/` splits into itself alone |
| MimeTypes.SplitAtFirstSeparator | src/hooks/useFileUpload.js:87 | splitting `x/y`, where `x` has no `/`, gives `x` followed by the pieces of `y` |
| MimeTypes.SplitJoin | src/hooks/useFileUpload.js:87 | splitting a join of `/`-free pieces gives back those pieces |
| MimeTypes.SecondSegment | src/App.jsx:18 | `split('/')[1]` is present exactly when the type holds a `/`, and it never holds a `/` itself |
| MimeTypes.ClassifyType | src/App.jsx:16-18 | the record type is never empty and contains no `/`. It is `image` for every `image/` type and `document` for a type without `/` |
| MimeTypes.SecondSegmentOf | src/App.jsx:18 | the second segment of `top/sub...` is `sub` when `top` holds no `/` |
| MimeTypes.ClassifyNonImage | src/App.jsx:16-18 | a non-image `top/sub...` is classified as `sub`, or as `document` when `sub` is empty |
| MimeTypes.ImageKindExactly | src/App.jsx:16-18 | the type is `image` exactly for `image/` types and for types whose second segment is literally `image` |
| Files.TransferFiles | src/hooks/useFileUpload.js:98-108 | the files copied one by one into the `DataTransfer` are the dropped files, in order |
| Files.WithoutName | src/App.jsx:113 | the filter keeps nothing with the name, keeps only elements of the list, keeps every element with another name, and never grows the list |
| Files.WithoutNameAppend | src/App.jsx:113 | filtering a concatenation is the concatenation of the filtered parts, so order is kept |
| Files.WithoutAbsentName | src/App.jsx:113 | a list without the name is left unchanged |
| Files.WithoutNameIdempotent | src/hooks/useFileUpload.js:116-117 | removing the same name twice is the same as removing it once |
| Files.WithoutNameCount | src/hooks/useFileUpload.js:116-117 | removal shortens the list by exactly the number of entries carrying the name |
| SheetClient.FormFields | src/lib/addToSheet.js:15-28 | one field per truthy section, each present exactly when its section is truthy, in the order metadata, mixingStep, phAdjustment. The timestamp field is always last |
| SheetClient.Interpret | src/lib/addToSheet.js:36-61 | a fetch failure rethrows its message. A non-ok reply fails with `Failed to add data to sheet: <status>`. An ok reply yields the parsed JSON, or `{status: "success", message: body}` when parsing throws |
| SheetClient.AddToSheet | src/lib/addToSheet.js:8-62 | the form built append by append equals `FormFields`, and the outcome equals `Interpret` of the reply |
| SheetClient.TimestampIsSendTime | src/lib/addToSheet.js:27-28 | the form does not depend on the caller's `timestamp` property. The send time is used instead |
| JsonDataTable.Sections.With | src/components/JsonDataTable.jsx:241-247 | replacing one section changes that section only |
| JsonDataTable.Loaded | src/components/JsonDataTable.jsx:219-230 | input that is not a non-empty array changes nothing. Otherwise each section is the array element at its position when that element is truthy, and `null` when it is falsy or missing |
| JsonDataTable.Saved | src/components/JsonDataTable.jsx:241-247 | the edited section becomes an object holding the new value under the key and its old properties under every other key. Other sections are unchanged |
| JsonDataTable.Formatted | src/components/JsonDataTable.jsx:272-277 | every published section is truthy: the section itself when truthy, `{}` otherwise, with the given timestamp |
| JsonDataTable.EmptyStateAfterLoad | src/components/JsonDataTable.jsx:294-298 | after loading a non-empty array, the "no data" screen shows exactly when none of its first three elements is truthy. Any other input leaves the screen as it was |
| JsonDataTable.LoadThenFormat | src/components/JsonDataTable.jsx:225-229 | load then publish sends each truthy array element verbatim and `{}` in place of the others |
| JsonDataTable.TableSendsEverySection | src/components/JsonDataTable.jsx:272-282 | the form the table sends always holds metadata, mixingStep, phAdjustment and timestamp, in that order |
| JsonDataTable.SaveShowsTable | src/components/JsonDataTable.jsx:238-247 | after a save the table is never in its empty state |
| JsonDataTable.SaveIdempotent | src/components/JsonDataTable.jsx:241-247 | saving the same value under the same key twice is the same as saving it once |
| JsonDataTable.NonOkToastDoublePrefix | src/components/JsonDataTable.jsx:288 | a non-ok reply with status `s` toasts `Failed to add data to sheet: Failed to add data to sheet: s`: the table prefixes the client's already-prefixed message |
| JsonDataTable.ToastFor | src/components/JsonDataTable.jsx:284-288 | a success toast, with the success text, exactly when publishing succeeded. Otherwise the error toast is the prefix plus the error message |
| JsonDataTable.Table.constructor | src/components/JsonDataTable.jsx:206-214 | all sections start `null`, with no edit cursor, an empty edit value and no publish in flight |
| JsonDataTable.Table.Load | src/components/JsonDataTable.jsx:219-230 | the sections become `Loaded(old sections, data)` and nothing else changes |
| JsonDataTable.Table.Start | src/components/JsonDataTable.jsx:233-237 | the cursor moves to the given row and copies its value. That row becomes the only one in edit mode |
| JsonDataTable.Table.SetEditValue | src/components/JsonDataTable.jsx:194 | only the pending value changes |
| JsonDataTable.Table.Save | src/components/JsonDataTable.jsx:238-252 | without a section or with an empty key nothing changes. Otherwise the sections become `Saved(...)` and the cursor is cleared |
| JsonDataTable.Table.Cancel | src/components/JsonDataTable.jsx:253-257 | the cursor is cleared and the data is untouched |
| JsonDataTable.Table.AddToSheet | src/components/JsonDataTable.jsx:267-292 | the posted form is `FormFields(Formatted(sections, timestamp), now)`, so by `TableSendsEverySection` it always carries all three sections. The toast is `ToastFor(Interpret(reply))`. The data and the cursor are unchanged, and no publish is left in flight |
| FileUploadHook.ExtractedValue | src/hooks/useFileUpload.js:45-64 | the extraction resolves with a non-empty string exactly when the service answered: the description, or "No text found". It resolves with `null` otherwise |
| FileUploadHook.ErrorAfter | src/hooks/useFileUpload.js:45-64 | the error recorded is only set on failure. It is `Failed to extract text: <status>` for a non-ok reply and the thrown message otherwise |
| FileUploadHook.PreviewFor | src/hooks/useFileUpload.js:76-90 | a preview has the file's name and classified type. It has a URL exactly for images, and `hasText` exactly for images whose extraction resolved with text |
| FileUploadHook.UploadState.constructor | src/hooks/useFileUpload.js:4-8 | empty lists and empty dictionaries |
| FileUploadHook.UploadState.BeginExtraction | src/hooks/useFileUpload.js:12-13 | the name is marked in flight and its error reset to `null` |
| FileUploadHook.UploadState.FinishExtraction | src/hooks/useFileUpload.js:45-67 | the text or the error is stored under the name, and the in-flight flag is cleared whatever the outcome |
| FileUploadHook.UploadState.ExtractTextFromImage | src/hooks/useFileUpload.js:10-68 | the whole extraction touches only the file's name in the three dictionaries, and returns `ExtractedValue` |
| FileUploadHook.PreviewsFor | src/hooks/useFileUpload.js:75-91 | the mapped array holds `PreviewFor` each selected file, in selection order |
| FileUploadHook.WrittenUntouched | src/hooks/useFileUpload.js:52-63 | successive `{...prev, [name]: v}` updates that write other names leave a name's entry as it was |
| FileUploadHook.WrittenLast | src/hooks/useFileUpload.js:52-63 | of successive `{...prev, [name]: v}` updates, the last one under a name is the one that stays |
| FileUploadHook.UploadState.FinishFile | src/hooks/useFileUpload.js:77-90 | once its request has settled, an image finishes its extraction and gets its preview with a URL. Any other file only gets its labelled preview and leaves the dictionaries alone |
| FileUploadHook.UploadState.StartExtractions | src/hooks/useFileUpload.js:75-77 | before any request settles, every selected image is marked in flight with its error reset to `null` |
| FileUploadHook.UploadState.SettleExtractions | src/hooks/useFileUpload.js:75-91 | as the requests settle, each image's flag is cleared, each text and each failure's error is stored, and the previews are `PreviewsFor` the selection |
| FileUploadHook.UploadState.HandleFileChange | src/hooks/useFileUpload.js:70-94 | the selection replaces the files, with one preview per file in order. The three dictionaries become `FlagsAfter`, `TextAfter` and `ErrorsAfter` of the selection: every start runs before any request settles |
| FileUploadHook.UploadState.HandleDrop | src/hooks/useFileUpload.js:96-109 | a drop has exactly the effect of selecting the same files, on the files, the previews and all three dictionaries |
| FileUploadHook.UnselectedNameKept | src/hooks/useFileUpload.js:70-94 | a name that no selected image carries keeps its flag, its text and its error |
| FileUploadHook.SelectedImageSettled | src/hooks/useFileUpload.js:65-67 | every selected image's name ends with its flag cleared and with an error entry |
| FileUploadHook.LastFailureKept | src/hooks/useFileUpload.js:52-64 | the error under a name is that of the last failing image with that name. A later success does not clear it |
| FileUploadHook.NoFailureNoError | src/hooks/useFileUpload.js:12-13 | a name whose selected images all succeed ends with a `null` error |
| FileUploadHook.UniqueImageSettles | src/hooks/useFileUpload.js:70-94 | an image whose name no other selected file carries ends with its own result: flag cleared, its extracted text stored (or the old text kept when it failed), and its own error |
| FileUploadHook.UploadState.HandleRemove | src/hooks/useFileUpload.js:115-133 | every file and preview with the name goes, the rest keep their order, and the name leaves all three dictionaries |
| FileUploadHook.HasTextMeansResolved | src/hooks/useFileUpload.js:77-82 | for an image, `hasText` holds exactly when the extraction resolved with a string, "No text found" included |
| FileWorkspace.RecordOf | src/App.jsx:14-21 | the record carries the file, its name and its classified type, with a URL exactly for images |
| FileWorkspace.RecordsOf | src/App.jsx:11-21 | one record per selected file, in selection order, each `RecordOf` its file and that position's object URL, so the URL is present exactly for images |
| FileWorkspace.DropFiles | src/App.jsx:28-44 | a drop yields the records a selection of the same files yields |
| FileWorkspace.Workspace.constructor | src/App.jsx:106 | the list starts empty |
| FileWorkspace.Workspace.HandleFileUpload | src/App.jsx:108-110 | new records are appended after the old ones. The upload form stays only when both are empty |
| FileWorkspace.Workspace.HandleFileRemove | src/App.jsx:112-114 | every record with the name goes and the rest keep their order. The upload form comes back exactly when every record carried the name |
| FileWorkspace.UploadThenRemove | src/App.jsx:108-114 | removal after an upload equals removal from the old list and from the batch separately. A batch without the name survives whole |
| UploadLayout.Layout.constructor | src/components/FileUploadLayout.jsx:10-11 | nothing selected and no text stored |
| UploadLayout.Layout.HandleExtracted | src/components/FileUploadLayout.jsx:13-18 | the text is stored under that name only |
| UploadLayout.Layout.Select | src/components/FileUploadLayout.jsx:68 | the selection is replaced and the text dictionary is kept |
| UploadLayout.Layout.PanelText | src/components/FileUploadLayout.jsx:111-116 | the panel gets the text stored under the selected name, `undefined` when there is none |
| UploadLayout.Layout.UploadFromPanel | src/components/FileUploadLayout.jsx:46-59 | the panel's upload appends the same records as the upload form |
| UploadLayout.PanelFollowsContentType | src/components/FileUploadLayout.jsx:111 | the text panel shows for `image/` types and also for types whose second segment is literally `image` |
| DocumentUploader.OcrText | src/App.tsx:31-74 | detection never settles when the file read fails. Otherwise it yields a non-empty string: the full text, or "No text found" for an answer without text, or "Error extracting text" when the request or the body fails |
| DocumentUploader.NewUploadedFile | src/App.tsx:90-120 | the record has the clock as id and the file's name, type and size. Images, and only images, get the object URL and exactly the detected text, which is never empty |
| DocumentUploader.Toggled | src/App.tsx:153-155 | the selection becomes the id exactly when it was not already that id, and is cleared otherwise |
| DocumentUploader.ToggleTwice | src/App.tsx:153-155 | toggling twice restores the selection exactly when it was empty or that same id. From another id it ends empty |
| DocumentUploader.Uploader.constructor | src/App.tsx:25-28 | no files, no progress, not extracting, nothing selected |
| DocumentUploader.Uploader.HandleFileSelect | src/App.tsx:76-147 | an empty selection does nothing. A first file over 5 MiB is rejected with the alert and nothing changes. An image whose read fails leaves the upload stuck at progress 30 with extraction in flight and nothing appended. Otherwise `NewUploadedFile` is appended, progress reaches 100, and extraction is no longer in flight after an image |
| DocumentUploader.Uploader.ResetProgress | src/App.tsx:132-135 | progress returns to 0 and nothing else changes |
| DocumentUploader.Uploader.ToggleTextPreview | src/App.tsx:153-155 | the selection becomes `Toggled(old, id)` and nothing else changes |
| DropZone.SimulateUpload | src/components/FileUpload.tsx:72-81 | the interval reports 10, 20, ..., 100, one value per tick, and stops at 100 |
| DropZone.Card.constructor | src/components/FileUpload.tsx:20-28 | keeps the size limit, 10 megabytes when none is given, with no file, no preview, no highlight and no progress |
| DropZone.Card.HandleDrag | src/components/FileUpload.tsx:30-38 | enter and over light the drop area and leave dims it. Nothing else changes |
| DropZone.Card.HandleFile | src/components/FileUpload.tsx:50-70 | a file over `maxSize` MB gets the alert and nothing changes. Otherwise it becomes the chosen file and is passed on. The preview is the reader's result for images, `null` when that read fails, and none for other files, and progress ends at 100 |
| DropZone.Card.HandleDrop | src/components/FileUpload.tsx:40-48 | the highlight goes off and only the first dropped file is handled, exactly as `HandleFile` handles it: the size alert, or the chosen file, its preview, the hand-off and progress 100 |
| DropZone.Card.RemoveFile | src/components/FileUpload.tsx:83-87 | no file, no preview, no progress |

## Left out

- **Network calls** (Google Vision, the spreadsheet web app): their outcomes are parameters (`OcrOutcome`, `VisionReply`, `Reply`). Request building, the API keys and the environment URL are not modelled.
- **`FileReader`, `URL.createObjectURL`, `Date` and `JSON.parse`/`JSON.stringify`**: the data URL, the object URLs, the timestamps and the parse result are parameters. Form values are kept as `JsonOf(value)` rather than as serialised text.
- **Asynchrony**: `await`, `setTimeout` and `setInterval` are not modelled. React's batching of state updates is not modelled either. The intermediate states are not visible after a call.
- **`Promise.all`** in `useFileUpload.js`: every image's extraction starts before any request settles, as the map callbacks run synchronously up to their first `await`. The requests then settle in selection order. Other completion orders are not modelled.
- **Number values**: `NaN` and negative zero are not modelled. A JSON number is a `real`, and `0` is the only falsy number.
- **Other components** (`TextExtractor`, `FileList`, `FilePreview`, `ImageModal`, `TextExtractionPanel`): these are not part of this model. That includes the call of `onExtracted` that feeds `UploadLayout.Layout.HandleExtracted`. Markup, animations and styling are also out of scope.
- **The `catch` branch of `handleFileSelect`** in `App.tsx`: not modelled. Nothing inside the `try` can throw once `extractTextFromImage` has caught its own errors.
- **Clearing the file input** in `App.tsx` and the drop handlers' assignment to `fileInput.files`: not modelled. Both only touch the DOM.
- FileUploadHook.UploadState.HandleFileChange: when two selected images share a name, the text that survives is that of the last successful request to settle (a failure writes no text), and the error is that of the last failing request to settle (a success writes no error). The model settles requests in selection order, but the browser settles them in the order they complete.
- FileUploadHook.ErrorAfter: a file-read failure rejects with an event that has no `message`. That error is recorded as `None`, the same as the `null` stored at the start of an extraction.
- DocumentUploader.Uploader.HandleFileSelect: does not state the intermediate progress values 10, 30, 70 and 90, nor the window in which `isExtracting` is true. Both are overwritten before the handler returns.
- DropZone.Card.HandleFile: the image preview is set when the file reader finishes. Here it is set during the call, to the reader's result (`None` for a failed read).
- DropZone.Card.constructor: the `maxSize` prop is a whole number of megabytes here. A fractional limit, and how `${maxSize}` renders it in the alert, are not modelled.
- JsValues.Spread: a string is spread by Dafny characters (Unicode code points). JavaScript spreads UTF-16 code units, so a character outside the Basic Multilingual Plane gives one property here and two in JavaScript.
