/** The drag-and-drop upload card (`FileUpload`): the chosen file, its
    preview, the drag highlight and a simulated upload progress that climbs
    in steps of 10. Timers are not modelled; the interval's ticks are
    produced in order. */
module DropZone {
  import opened JsValues
  import opened MimeTypes
  import opened Files

  const ProgressStep: nat := 10
  const ProgressDone: nat := 100

  /** `maxSize * 1024 * 1024` */
  function LimitBytes(maxSizeMb: nat): nat {
    maxSizeMb * 1024 * 1024
  }

  /** The alert for a file over the limit. */
  function SizeAlert(maxSizeMb: nat): string {
    "File size should be less than " + NatToString(maxSizeMb) + "MB"
  }

  /** The drag events the card listens to besides `drop`. */
  datatype DragKind = DragEnter | DragOver | DragLeave

  /** The values `simulateUpload` passes to `setUploadProgress`, one per
      interval tick: 10, 20, ..., 100, after which the interval is cleared. */
  method SimulateUpload() returns (ticks: seq<nat>)
    ensures |ticks| == ProgressDone / ProgressStep
    ensures forall i :: 0 <= i < |ticks| ==> ticks[i] == ProgressStep * (i + 1)
    ensures ticks[|ticks| - 1] == ProgressDone
  {
    var progress: nat := 0;
    ticks := [];
    var cleared := false;
    while !cleared
      invariant progress <= ProgressDone && progress % ProgressStep == 0
      invariant |ticks| == progress / ProgressStep
      invariant forall i :: 0 <= i < |ticks| ==> ticks[i] == ProgressStep * (i + 1)
      invariant cleared <==> progress >= ProgressDone
      decreases ProgressDone - progress
    {
      progress := progress + ProgressStep;
      ticks := ticks + [progress];
      if progress >= ProgressDone {
        cleared := true;
      }
    }
  }

  /** The `maxSize` a card gets when its caller gives none. */
  const DefaultMaxSizeMb: nat := 10

  class Card {
    const maxSize: nat
    var file: Option<RawFile>
    var preview: Option<string>
    var dragActive: bool
    var uploadProgress: nat
    /** The files handed to `onFileSelect`, in order. */
    var selected: seq<RawFile>

    /** The component's `maxSize` prop, in megabytes, 10 when the caller
        gives none. */
    constructor (maxSize: nat := DefaultMaxSizeMb)
      ensures this.maxSize == maxSize
      ensures file == None && preview == None && !dragActive && uploadProgress == 0 && selected == []
    {
      this.maxSize := maxSize;
      file := None;
      preview := None;
      dragActive := false;
      uploadProgress := 0;
      selected := [];
    }

    /** `handleDrag`: enter and over light the drop area, leave dims it. */
    method HandleDrag(kind: DragKind)
      modifies this
      ensures dragActive <==> kind != DragLeave
      ensures file == old(file) && preview == old(preview)
      ensures uploadProgress == old(uploadProgress) && selected == old(selected)
    {
      if kind == DragEnter || kind == DragOver {
        dragActive := true;
      } else if kind == DragLeave {
        dragActive := false;
      }
    }

    /** `handleFile`: a file over the limit is refused with an alert and
        nothing changes; otherwise it becomes the chosen file, images get
        the reader's result as preview (`null` when the read fails, given
        here as `dataUrl == None`) and other files none, the file is passed
        to `onFileSelect`, and the simulated upload runs to 100. */
    method HandleFile(f: RawFile, dataUrl: Option<string>) returns (alert: Option<string>)
      modifies this
      ensures f.size > LimitBytes(maxSize) ==>
                && alert == Some(SizeAlert(maxSize))
                && file == old(file) && preview == old(preview)
                && uploadProgress == old(uploadProgress) && selected == old(selected)
      ensures f.size <= LimitBytes(maxSize) ==>
                && alert == None && file == Some(f)
                && preview == (if IsImageType(f.mimeType) then dataUrl else None)
                && uploadProgress == ProgressDone && selected == old(selected) + [f]
      ensures dragActive == old(dragActive)
    {
      if f.size > LimitBytes(maxSize) {
        return Some(SizeAlert(maxSize));
      }
      if IsImageType(f.mimeType) {
        preview := dataUrl;
      } else {
        preview := None;
      }
      file := Some(f);
      selected := selected + [f];
      var ticks := SimulateUpload();
      var i := 0;
      while i < |ticks|
        invariant 0 <= i <= |ticks|
        invariant i > 0 ==> uploadProgress == ticks[i - 1]
        invariant file == Some(f) && selected == old(selected) + [f] && dragActive == old(dragActive)
        invariant preview == (if IsImageType(f.mimeType) then dataUrl else None)
      {
        uploadProgress := ticks[i];
        i := i + 1;
      }
      alert := None;
    }

    /** `handleDrop`: the highlight goes off, and only the first dropped
        file, if any, is handled; `dataUrl` is what its reader yields. */
    method HandleDrop(dropped: seq<RawFile>, dataUrl: Option<string>) returns (alert: Option<string>)
      modifies this
      ensures !dragActive
      ensures dropped == [] ==>
                && alert == None && file == old(file) && preview == old(preview)
                && uploadProgress == old(uploadProgress) && selected == old(selected)
      ensures dropped != [] && dropped[0].size > LimitBytes(maxSize) ==>
                && alert == Some(SizeAlert(maxSize)) && file == old(file) && preview == old(preview)
                && uploadProgress == old(uploadProgress) && selected == old(selected)
      ensures dropped != [] && dropped[0].size <= LimitBytes(maxSize) ==>
                && alert == None && file == Some(dropped[0]) && uploadProgress == ProgressDone
                && preview == (if IsImageType(dropped[0].mimeType) then dataUrl else None)
                && selected == old(selected) + [dropped[0]]
    {
      dragActive := false;
      alert := None;
      if |dropped| > 0 {
        alert := HandleFile(dropped[0], dataUrl);
      }
    }

    /** `removeFile`: back to no file, no preview and no progress. */
    method RemoveFile()
      modifies this
      ensures file == None && preview == None && uploadProgress == 0
      ensures dragActive == old(dragActive) && selected == old(selected)
    {
      file := None;
      preview := None;
      uploadProgress := 0;
    }
  }
}
