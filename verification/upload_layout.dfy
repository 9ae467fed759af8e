/** The two-pane layout of the JavaScript app (`FileUploadLayout`): the
    selected record, a dictionary of extracted text keyed by file name, the
    panel's own upload input, and when the text panel is shown. */
module UploadLayout {
  import opened JsValues
  import opened MimeTypes
  import opened Files
  import opened FileWorkspace

  class Layout {
    var selectedFile: Option<FileRecord>
    var extractedText: map<string, string>

    constructor ()
      ensures selectedFile == None && extractedText == map[]
    {
      selectedFile := None;
      extractedText := map[];
    }

    /** `handleExtracted(name, text)`: sets the text under that name only;
        a later call for the same name overwrites it. */
    method HandleExtracted(name: string, text: string)
      modifies this
      ensures extractedText == old(extractedText)[name := text]
      ensures selectedFile == old(selectedFile)
    {
      extractedText := extractedText[name := text];
    }

    /** `onSelect`, wired to `setSelectedFile`. */
    method Select(file: Option<FileRecord>)
      modifies this
      ensures selectedFile == file && extractedText == old(extractedText)
    {
      selectedFile := file;
    }

    /** The text panel is rendered only for a selected record of kind
        "image". */
    predicate ShowsTextPanel()
      reads this
    {
      selectedFile.Some? && selectedFile.value.kind == ImageKind
    }

    /** What the text panel receives: the text stored under the selected
        record's name, `undefined` (here `None`) when there is none. */
    function PanelText(): (t: Option<string>)
      reads this
      requires ShowsTextPanel()
      ensures t.Some? <==> selectedFile.value.name in extractedText
      ensures t.Some? ==> t.value == extractedText[selectedFile.value.name]
    {
      if selectedFile.value.name in extractedText then Some(extractedText[selectedFile.value.name]) else None
    }

    /** The panel's own upload input: it builds the records with the same
        rule as the upload form and hands them to the app, which appends
        them. */
    method UploadFromPanel(app: Workspace, selected: seq<RawFile>, objectUrl: nat -> string)
      modifies app
      ensures app.files == old(app.files) + RecordsOf(selected, objectUrl)
    {
      var newFiles := seq(|selected|, i requires 0 <= i < |selected| => RecordOf(selected[i], objectUrl(i)));
      app.HandleFileUpload(newFiles);
    }
  }

  /** Whether the text panel shows depends only on the record's content
      type: images always get it, and so do non-image types whose second
      segment is literally "image". */
  lemma PanelFollowsContentType(file: RawFile, url: string)
    ensures (RecordOf(file, url).kind == ImageKind)
        <==> (IsImageType(file.mimeType) || SecondSegment(file.mimeType) == Some(ImageKind))
  {
  }
}
