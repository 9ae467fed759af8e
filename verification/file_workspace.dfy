/** The top-level screen of the JavaScript app (`App.jsx`): the upload form
    turns selected or dropped files into records, and the app keeps the
    list of records, appending new uploads and removing by name. */
module FileWorkspace {
  import opened JsValues
  import opened MimeTypes
  import opened Files

  /** `{ name, type, url, file }` */
  datatype FileRecord = FileRecord(name: string, kind: string, url: Option<string>, file: RawFile)

  function RecordName(r: FileRecord): string { r.name }

  /** The record the upload form builds for one file; `url` is what
      `URL.createObjectURL(file)` gives, used for images only. */
  function RecordOf(file: RawFile, url: string): (r: FileRecord)
    ensures r.name == file.name && r.file == file
    ensures r.kind == ClassifyType(file.mimeType)
    ensures r.url.Some? <==> IsImageType(file.mimeType)
    ensures r.url.Some? ==> r.url.value == url && r.kind == ImageKind
  {
    FileRecord(file.name, ClassifyType(file.mimeType),
               if IsImageType(file.mimeType) then Some(url) else None,
               file)
  }

  /** `selectedFiles.map(...)`: one record per file, in selection order;
      `objectUrl(i)` is the URL created for the `i`-th file. */
  function RecordsOf(selected: seq<RawFile>, objectUrl: nat -> string): (records: seq<FileRecord>)
    ensures |records| == |selected|
    ensures forall i :: 0 <= i < |selected| ==>
              && records[i].file == selected[i] && records[i].name == selected[i].name
              && records[i].kind == ClassifyType(selected[i].mimeType)
              && (records[i].url.Some? <==> IsImageType(selected[i].mimeType))
    ensures forall i :: 0 <= i < |selected| ==> records[i] == RecordOf(selected[i], objectUrl(i))
  {
    var records := seq(|selected|, i requires 0 <= i < |selected| => RecordOf(selected[i], objectUrl(i)));
    assert forall i :: 0 <= i < |selected| ==> records[i] == RecordOf(selected[i], objectUrl(i));
    records
  }

  /** The upload form's drop handler: it copies the dropped files into a
      `DataTransfer` and hands them to the change handler, so a drop yields
      the records a click selection of the same files yields. */
  method DropFiles(dropped: seq<RawFile>, objectUrl: nat -> string) returns (records: seq<FileRecord>)
    ensures records == RecordsOf(dropped, objectUrl)
  {
    var transfer := TransferFiles(dropped);
    records := RecordsOf(transfer, objectUrl);
  }

  /** The app's state: the uploaded records. */
  class Workspace {
    var files: seq<FileRecord>

    constructor ()
      ensures files == []
    {
      files := [];
    }

    /** The upload form is on screen exactly while no file is listed. */
    predicate ShowsUploadForm()
      reads this
    {
      |files| == 0
    }

    /** `handleFileUpload`: new records go after the existing ones. */
    method HandleFileUpload(newFiles: seq<FileRecord>)
      modifies this
      ensures files == old(files) + newFiles
      ensures ShowsUploadForm() <==> old(files) == [] && newFiles == []
    {
      files := files + newFiles;
    }

    /** `handleFileRemove`: every record with the name goes; the rest keep
        their order. */
    method HandleFileRemove(name: string)
      modifies this
      ensures files == WithoutName(old(files), RecordName, name)
      ensures ShowsUploadForm() <==> NameCount(old(files), RecordName, name) == |old(files)|
    {
      WithoutNameCount(files, RecordName, name);
      files := WithoutName(files, RecordName, name);
    }
  }

  /** Uploading and then removing a name is the same as removing it from
      the old list and from the new batch separately; in particular, a
      batch that does not carry the name survives whole. */
  lemma UploadThenRemove(existing: seq<FileRecord>, batch: seq<FileRecord>, name: string)
    ensures WithoutName(existing + batch, RecordName, name)
              == WithoutName(existing, RecordName, name) + WithoutName(batch, RecordName, name)
    ensures (forall i :: 0 <= i < |batch| ==> batch[i].name != name) ==>
              WithoutName(existing + batch, RecordName, name) == WithoutName(existing, RecordName, name) + batch
  {
    WithoutNameAppend(existing, batch, RecordName, name);
    if forall i :: 0 <= i < |batch| ==> batch[i].name != name {
      WithoutAbsentName(batch, RecordName, name);
    }
  }
}
