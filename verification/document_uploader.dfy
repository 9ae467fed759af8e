/** The single-file uploader of the TypeScript app (`App.tsx`): it admits
    the first selected file if it is at most 5 MiB, runs text detection on
    images, appends one record per upload, and toggles which record's text
    is shown. Text detection itself is not modelled; its reply is an input. */
module DocumentUploader {
  import opened JsValues
  import opened MimeTypes
  import opened Files

  /** 5 * 1024 * 1024 bytes. */
  const MaxUploadBytes: nat := 5 * 1024 * 1024

  const NoTextFound := "No text found"
  const ErrorExtractingText := "Error extracting text"
  const TooLargeAlert := "File size must be less than 5MB"

  /** How a text-detection request came out, as this app reads it. The file
      read's promise has no rejection path: when the read fails, `onloadend`
      throws on the `null` result and the promise never settles
      (`ReadFails`). Otherwise `fetch` or the body parse threw (`Threw`), the
      body had no `responses` array (`NoResponses`, an error body), or it
      carried `responses[0]?.fullTextAnnotation?.text` (`Answered`). The HTTP
      status is not checked. */
  datatype VisionReply =
    | ReadFails
    | Threw
    | NoResponses
    | Answered(fullText: Option<string>)

  /** What `extractTextFromImage` resolves with; it never rejects, and
      `None` stands for a promise that never settles. */
  function OcrText(reply: VisionReply): (text: Option<string>)
    ensures text.None? <==> reply.ReadFails?
    ensures text.Some? ==> text.value != ""
    ensures reply.Threw? || reply.NoResponses? ==> text == Some(ErrorExtractingText)
    ensures reply.Answered? && reply.fullText.Some? && reply.fullText.value != "" ==> text == reply.fullText
    ensures reply.Answered? && (reply.fullText.None? || reply.fullText.value == "") ==> text == Some(NoTextFound)
  {
    match reply
    case ReadFails => None
    case Answered(t) => Some(if t.Some? && t.value != "" then t.value else NoTextFound)
    case _ => Some(ErrorExtractingText)
  }

  /** `UploadedFile` */
  datatype UploadedFile = UploadedFile(
    id: string, name: string, mimeType: string, preview: Option<string>, size: nat, extractedText: Option<string>)

  /** The record made for an admitted file; `nowMillis` is
      `new Date().getTime()`, `objectUrl` what `URL.createObjectURL` gives.
      For an image it exists only once text detection has settled. */
  function NewUploadedFile(file: RawFile, nowMillis: nat, objectUrl: string, reply: VisionReply): (u: UploadedFile)
    requires IsImageType(file.mimeType) ==> !reply.ReadFails?
    ensures u.id == NatToString(nowMillis)
    ensures u.name == file.name && u.mimeType == file.mimeType && u.size == file.size
    ensures u.preview.Some? <==> IsImageType(file.mimeType)
    ensures u.preview.Some? ==> u.preview.value == objectUrl
    ensures u.extractedText.Some? <==> IsImageType(file.mimeType)
    ensures IsImageType(file.mimeType) ==> u.extractedText == OcrText(reply)
    ensures u.extractedText.Some? ==> u.extractedText.value != ""
  {
    var image := IsImageType(file.mimeType);
    UploadedFile(NatToString(nowMillis), file.name, file.mimeType,
                 if image then Some(objectUrl) else None, file.size,
                 if image then OcrText(reply) else None)
  }

  /** `selectedFileId === id ? null : id` */
  function Toggled(current: Option<string>, id: string): (next: Option<string>)
    ensures next == Some(id) <==> current != Some(id)
    ensures next.Some? ==> next.value == id
  {
    if current == Some(id) then None else Some(id)
  }

  /** Toggling the same id twice restores the selection exactly when
      nothing or that same id was selected; from another record's id it
      ends with nothing selected. */
  lemma ToggleTwice(current: Option<string>, id: string)
    ensures (Toggled(Toggled(current, id), id) == current) <==> (current == None || current == Some(id))
    ensures current.Some? && current != Some(id) ==> Toggled(Toggled(current, id), id) == None
  {
  }

  /** What `handleFileSelect` did with a selection; `Stalled` is an upload
      left waiting on a file read that never settles. */
  datatype SelectOutcome = NothingSelected | Rejected(alert: string) | Stalled | Added(file: UploadedFile)

  class Uploader {
    var uploadedFiles: seq<UploadedFile>
    var uploadProgress: nat
    var isExtracting: bool
    var selectedFileId: Option<string>

    constructor ()
      ensures uploadedFiles == [] && uploadProgress == 0 && !isExtracting && selectedFileId == None
    {
      uploadedFiles := [];
      uploadProgress := 0;
      isExtracting := false;
      selectedFileId := None;
    }

    /** `handleFileSelect`: only the first selected file is considered; one
        over 5 MiB is refused with an alert and nothing changes; an image
        whose read fails leaves the upload waiting at 30 with extraction in
        flight; otherwise its record is appended and the progress bar
        reaches 100. */
    method HandleFileSelect(selection: seq<RawFile>, nowMillis: nat, objectUrl: string, reply: VisionReply)
      returns (outcome: SelectOutcome)
      modifies this
      ensures selection == [] ==> outcome == NothingSelected
      ensures selection != [] && selection[0].size > MaxUploadBytes ==> outcome == Rejected(TooLargeAlert)
      ensures selection != [] && selection[0].size <= MaxUploadBytes && IsImageType(selection[0].mimeType)
                && reply.ReadFails? ==>
                && outcome == Stalled && uploadedFiles == old(uploadedFiles)
                && uploadProgress == 30 && isExtracting
      ensures selection != [] && selection[0].size <= MaxUploadBytes
                && !(IsImageType(selection[0].mimeType) && reply.ReadFails?) ==>
                && outcome == Added(NewUploadedFile(selection[0], nowMillis, objectUrl, reply))
                && uploadedFiles == old(uploadedFiles) + [outcome.file]
                && uploadProgress == 100
                && isExtracting == (old(isExtracting) && !IsImageType(selection[0].mimeType))
      ensures outcome.NothingSelected? || outcome.Rejected? ==>
                && uploadedFiles == old(uploadedFiles) && uploadProgress == old(uploadProgress)
                && isExtracting == old(isExtracting)
      ensures selectedFileId == old(selectedFileId)
    {
      if |selection| == 0 {
        return NothingSelected;
      }
      var file := selection[0];
      if file.size > MaxUploadBytes {
        return Rejected(TooLargeAlert);
      }
      var preview: Option<string> := None;
      if IsImageType(file.mimeType) {
        preview := Some(objectUrl);
      }
      uploadProgress := 10;
      var id := NatToString(nowMillis);
      uploadProgress := 30;
      var extractedText: Option<string> := None;
      if IsImageType(file.mimeType) {
        isExtracting := true;
        extractedText := OcrText(reply);
        if extractedText.None? {
          return Stalled;
        }
        isExtracting := false;
      }
      var newFile := UploadedFile(id, file.name, file.mimeType, preview, file.size, extractedText);
      uploadProgress := 70;
      uploadProgress := 90;
      uploadedFiles := uploadedFiles + [newFile];
      uploadProgress := 100;
      outcome := Added(newFile);
    }

    /** The timer that fires 500 ms after an upload completes. */
    method ResetProgress()
      modifies this
      ensures uploadProgress == 0
      ensures uploadedFiles == old(uploadedFiles) && isExtracting == old(isExtracting)
      ensures selectedFileId == old(selectedFileId)
    {
      uploadProgress := 0;
    }

    /** `toggleTextPreview(id)` */
    method ToggleTextPreview(id: string)
      modifies this
      ensures selectedFileId == Toggled(old(selectedFileId), id)
      ensures uploadedFiles == old(uploadedFiles) && uploadProgress == old(uploadProgress)
      ensures isExtracting == old(isExtracting)
    {
      selectedFileId := if selectedFileId == Some(id) then None else Some(id);
    }
  }
}
