/** The file-upload hook (`useFileUpload`): the selected files, one preview
    record per file, and three dictionaries keyed by display name for the
    extracted text, the in-flight flag and the extraction error. Text
    detection is not modelled; what each request came to is an input. */
module FileUploadHook {
  import opened JsValues
  import opened MimeTypes
  import opened Files

  /** A preview record: `{ name, type, url, hasText }`. */
  datatype Preview = Preview(name: string, kind: string, url: Option<string>, hasText: bool)

  function PreviewName(p: Preview): string { p.name }

  /** How one text-detection request ended. `Threw` covers a failed file
      read (whose rejection carries no `message`), a failed `fetch`, an
      unreadable body and an ok body without `responses` (reading
      `data.responses[0]` then throws a `TypeError`); `Answered` carries
      `data.responses[0]?.textAnnotations?.[0]?.description`. */
  datatype OcrOutcome =
    | Threw(message: Option<string>)
    | NotOk(status: nat)
    | Answered(description: Option<string>)

  const NoTextFound := "No text found"
  const ExtractErrorPrefix := "Failed to extract text: "

  /** The value `extractTextFromImage` resolves with; `None` is `null`. */
  function ExtractedValue(outcome: OcrOutcome): (r: Option<string>)
    ensures r.Some? <==> outcome.Answered?
    ensures r.Some? ==> r.value != ""
    ensures outcome.Answered? && outcome.description.Some? && outcome.description.value != "" ==>
              r == outcome.description
    ensures outcome.Answered? && (outcome.description.None? || outcome.description.value == "") ==>
              r == Some(NoTextFound)
  {
    match outcome
    case Answered(d) => Some(if d.Some? && d.value != "" then d.value else NoTextFound)
    case _ => None
  }

  /** The error recorded under the file's name once the extraction has
      settled: `null` after a success. */
  function ErrorAfter(outcome: OcrOutcome): (e: Option<string>)
    ensures e.Some? ==> !outcome.Answered?
    ensures outcome.NotOk? ==> e == Some(ExtractErrorPrefix + NatToString(outcome.status))
    ensures outcome.Threw? ==> e == outcome.message
  {
    match outcome
    case Threw(message) => message
    case NotOk(status) => Some(ExtractErrorPrefix + NatToString(status))
    case Answered(_) => None
  }

  /** The preview record for the `i`-th selected file, given the outcome of
      its text detection and the object URL created for it. */
  function PreviewFor(file: RawFile, outcome: OcrOutcome, url: string): (p: Preview)
    ensures p.name == file.name
    ensures p.kind == ClassifyType(file.mimeType)
    ensures p.url.Some? <==> IsImageType(file.mimeType)
    ensures p.url.Some? ==> p.url.value == url
    ensures p.hasText <==> IsImageType(file.mimeType) && outcome.Answered?
  {
    if IsImageType(file.mimeType) then
      Preview(file.name, ImageKind, Some(url), ExtractedValue(outcome).Some?)
    else
      Preview(file.name, ClassifyType(file.mimeType), None, false)
  }

  /** The previews of the first `n` selected files, in selection order. */
  function PreviewsFor(files: seq<RawFile>, ocr: nat -> OcrOutcome, objectUrl: nat -> string, n: nat)
    : (previews: seq<Preview>)
    requires n <= |files|
    ensures |previews| == n
    ensures forall j :: 0 <= j < n ==> previews[j] == PreviewFor(files[j], ocr(j), objectUrl(j))
  {
    if n == 0 then [] else PreviewsFor(files, ocr, objectUrl, n - 1) + [PreviewFor(files[n - 1], ocr(n - 1), objectUrl(n - 1))]
  }

  /** `m` and `m0` agree at key `n`: both lack it, or both map it to the
      same value. */
  ghost predicate SameAt<V>(m: map<string, V>, m0: map<string, V>, n: string) {
    (n in m <==> n in m0) && (n in m ==> m[n] == m0[n])
  }

  /** Some image among `files` carries the name. */
  predicate NamesAnImage(files: seq<RawFile>, name: string) {
    exists j :: 0 <= j < |files| && IsImageType(files[j].mimeType) && files[j].name == name
  }

  /** The dictionary `m` after one write per image among the first `n`
      files, in selection order: `write(j)` under the `j`-th file's name
      when it is `Some`, nothing when it is `None`. */
  function Written<V>(files: seq<RawFile>, n: nat, m: map<string, V>, write: nat -> Option<V>): map<string, V>
    requires n <= |files|
  {
    if n == 0 then m
    else
      var prev := Written(files, n - 1, m, write);
      if IsImageType(files[n - 1].mimeType) && write(n - 1).Some?
      then prev[files[n - 1].name := write(n - 1).value]
      else prev
  }

  /** The same value for every file. */
  function Always<V>(v: V): nat -> Option<V> {
    (j: nat) => Some(v)
  }

  /** The text the `j`-th extraction stores. */
  function TextWrites(ocr: nat -> OcrOutcome): nat -> Option<string> {
    (j: nat) => ExtractedValue(ocr(j))
  }

  /** The error the `j`-th extraction stores; a success stores none. */
  function ErrorWrites(ocr: nat -> OcrOutcome): nat -> Option<Option<string>> {
    (j: nat) => if ocr(j).Answered? then None else Some(ErrorAfter(ocr(j)))
  }

  /** `isExtracting` after a selection: every image's extraction starts
      (`true`) before any of them settles (`false`). */
  function FlagsAfter(files: seq<RawFile>, flags: map<string, bool>): map<string, bool> {
    Written(files, |files|, Written(files, |files|, flags, Always(true)), Always(false))
  }

  /** `extractedText` after a selection. */
  function TextAfter(files: seq<RawFile>, ocr: nat -> OcrOutcome, text: map<string, string>): map<string, string> {
    Written(files, |files|, text, TextWrites(ocr))
  }

  /** `extractionErrors` after a selection: every image's error is reset to
      `null` before any of them settles, then each failure stores its own. */
  function ErrorsAfter(files: seq<RawFile>, ocr: nat -> OcrOutcome, errors: map<string, Option<string>>)
    : map<string, Option<string>>
  {
    Written(files, |files|, Written(files, |files|, errors, Always(None)), ErrorWrites(ocr))
  }

  /** The hook's state. */
  class UploadState {
    var files: seq<RawFile>
    var previews: seq<Preview>
    var extractedText: map<string, string>
    var isExtracting: map<string, bool>
    var extractionErrors: map<string, Option<string>>

    constructor ()
      ensures files == [] && previews == []
      ensures extractedText == map[] && isExtracting == map[] && extractionErrors == map[]
    {
      files := [];
      previews := [];
      extractedText := map[];
      isExtracting := map[];
      extractionErrors := map[];
    }

    /** The start of `extractTextFromImage`, before its first await: the
        name is marked in flight and its error cleared. */
    method BeginExtraction(name: string)
      modifies this
      ensures isExtracting == old(isExtracting)[name := true]
      ensures extractionErrors == old(extractionErrors)[name := None]
      ensures files == old(files) && previews == old(previews) && extractedText == old(extractedText)
    {
      isExtracting := isExtracting[name := true];
      extractionErrors := extractionErrors[name := None];
    }

    /** The rest of `extractTextFromImage`: records the text or the error
        under the name and, in every case, clears the in-flight flag. */
    method FinishExtraction(name: string, outcome: OcrOutcome) returns (text: Option<string>)
      modifies this
      ensures text == ExtractedValue(outcome)
      ensures extractedText == if text.Some? then old(extractedText)[name := text.value] else old(extractedText)
      ensures outcome.Answered? ==> extractionErrors == old(extractionErrors)
      ensures !outcome.Answered? ==> extractionErrors == old(extractionErrors)[name := ErrorAfter(outcome)]
      ensures isExtracting == old(isExtracting)[name := false]
      ensures files == old(files) && previews == old(previews)
    {
      match outcome {
        case NotOk(status) =>
          extractionErrors := extractionErrors[name := Some(ExtractErrorPrefix + NatToString(status))];
          text := None;
        case Threw(message) =>
          extractionErrors := extractionErrors[name := message];
          text := None;
        case Answered(description) =>
          var t := if description.Some? && description.value != "" then description.value else NoTextFound;
          extractedText := extractedText[name := t];
          text := Some(t);
      }
      isExtracting := isExtracting[name := false];
    }

    /** `extractTextFromImage(file)` as a whole. */
    method ExtractTextFromImage(file: RawFile, outcome: OcrOutcome) returns (text: Option<string>)
      modifies this
      ensures text == ExtractedValue(outcome)
      ensures extractedText == if text.Some? then old(extractedText)[file.name := text.value] else old(extractedText)
      ensures extractionErrors == old(extractionErrors)[file.name := ErrorAfter(outcome)]
      ensures isExtracting == old(isExtracting)[file.name := false]
      ensures files == old(files) && previews == old(previews)
    {
      BeginExtraction(file.name);
      text := FinishExtraction(file.name, outcome);
    }

    /** The part of `handleFileChange`'s map callback that runs once the
        file's request has settled: an image's extraction finishes and the
        image gets a URL; any other file is only labelled. */
    method FinishFile(file: RawFile, outcome: OcrOutcome, url: string) returns (preview: Preview)
      modifies this
      ensures preview == PreviewFor(file, outcome, url)
      ensures IsImageType(file.mimeType) ==>
                && isExtracting == old(isExtracting)[file.name := false]
                && extractionErrors == (if outcome.Answered? then old(extractionErrors)
                                        else old(extractionErrors)[file.name := ErrorAfter(outcome)])
                && extractedText == if ExtractedValue(outcome).Some?
                                    then old(extractedText)[file.name := ExtractedValue(outcome).value]
                                    else old(extractedText)
      ensures !IsImageType(file.mimeType) ==>
                && isExtracting == old(isExtracting) && extractionErrors == old(extractionErrors)
                && extractedText == old(extractedText)
      ensures files == old(files) && previews == old(previews)
    {
      if IsImageType(file.mimeType) {
        var text := FinishExtraction(file.name, outcome);
        preview := Preview(file.name, ImageKind, Some(url), text.Some?);
      } else {
        preview := Preview(file.name, ClassifyType(file.mimeType), None, false);
      }
    }

    /** What `Promise.all(selectedFiles.map(...))` runs before its first
        request settles: the start of every image's extraction, in
        selection order. */
    method StartExtractions(selected: seq<RawFile>)
      modifies this
      ensures isExtracting == Written(selected, |selected|, old(isExtracting), Always(true))
      ensures extractionErrors == Written(selected, |selected|, old(extractionErrors), Always(None))
      ensures extractedText == old(extractedText) && files == old(files) && previews == old(previews)
    {
      var i := 0;
      while i < |selected|
        invariant 0 <= i <= |selected|
        invariant isExtracting == Written(selected, i, old(isExtracting), Always(true))
        invariant extractionErrors == Written(selected, i, old(extractionErrors), Always(None))
        invariant extractedText == old(extractedText) && files == old(files) && previews == old(previews)
      {
        if IsImageType(selected[i].mimeType) {
          BeginExtraction(selected[i].name);
        }
        i := i + 1;
      }
    }

    /** The rest of the map callbacks, as the requests settle in selection
        order; `built` is the array `Promise.all` resolves with. */
    method SettleExtractions(selected: seq<RawFile>, ocr: nat -> OcrOutcome, objectUrl: nat -> string)
      returns (built: seq<Preview>)
      modifies this
      ensures built == PreviewsFor(selected, ocr, objectUrl, |selected|)
      ensures isExtracting == Written(selected, |selected|, old(isExtracting), Always(false))
      ensures extractionErrors == Written(selected, |selected|, old(extractionErrors), ErrorWrites(ocr))
      ensures extractedText == Written(selected, |selected|, old(extractedText), TextWrites(ocr))
      ensures files == old(files) && previews == old(previews)
    {
      built := [];
      var i := 0;
      while i < |selected|
        invariant 0 <= i <= |selected|
        invariant isExtracting == Written(selected, i, old(isExtracting), Always(false))
        invariant extractionErrors == Written(selected, i, old(extractionErrors), ErrorWrites(ocr))
        invariant extractedText == Written(selected, i, old(extractedText), TextWrites(ocr))
        invariant files == old(files) && previews == old(previews)
        invariant built == PreviewsFor(selected, ocr, objectUrl, i)
      {
        WrittenStep(selected, i, old(isExtracting), Always(false));
        WrittenStep(selected, i, old(extractionErrors), ErrorWrites(ocr));
        WrittenStep(selected, i, old(extractedText), TextWrites(ocr));
        var preview := FinishFile(selected[i], ocr(i), objectUrl(i));
        built := built + [preview];
        i := i + 1;
      }
    }

    /** `handleFileChange`: the selection replaces `files` and `previews`
        (it does not append). `Promise.all` runs the start of every image's
        extraction before any request settles; the requests then settle in
        selection order. `ocr(i)` and `objectUrl(i)` are what the request and
        `URL.createObjectURL` give for the `i`-th file. */
    method HandleFileChange(selected: seq<RawFile>, ocr: nat -> OcrOutcome, objectUrl: nat -> string)
      modifies this
      ensures files == selected
      ensures |previews| == |selected|
      ensures forall i :: 0 <= i < |selected| ==> previews[i] == PreviewFor(selected[i], ocr(i), objectUrl(i))
      ensures isExtracting == FlagsAfter(selected, old(isExtracting))
      ensures extractedText == TextAfter(selected, ocr, old(extractedText))
      ensures extractionErrors == ErrorsAfter(selected, ocr, old(extractionErrors))
    {
      files := selected;
      StartExtractions(selected);
      var built := SettleExtractions(selected, ocr, objectUrl);
      previews := built;
    }

    /** The drop handler: the dropped files go through `handleFileChange`
        exactly as a click selection would. */
    method HandleDrop(dropped: seq<RawFile>, ocr: nat -> OcrOutcome, objectUrl: nat -> string)
      modifies this
      ensures files == dropped
      ensures |previews| == |dropped|
      ensures forall i :: 0 <= i < |dropped| ==> previews[i] == PreviewFor(dropped[i], ocr(i), objectUrl(i))
      ensures isExtracting == FlagsAfter(dropped, old(isExtracting))
      ensures extractedText == TextAfter(dropped, ocr, old(extractedText))
      ensures extractionErrors == ErrorsAfter(dropped, ocr, old(extractionErrors))
    {
      var transfer := TransferFiles(dropped);
      HandleFileChange(transfer, ocr, objectUrl);
    }

    /** `handleRemove(name)`: drops every file and preview with that name
        and deletes the name from all three dictionaries; files that share
        the name go together, and nothing under another name changes. */
    method HandleRemove(name: string)
      modifies this
      ensures previews == WithoutName(old(previews), PreviewName, name)
      ensures files == WithoutName(old(files), FileName, name)
      ensures extractedText == old(extractedText) - {name}
      ensures isExtracting == old(isExtracting) - {name}
      ensures extractionErrors == old(extractionErrors) - {name}
    {
      previews := WithoutName(previews, PreviewName, name);
      files := WithoutName(files, FileName, name);
      extractedText := extractedText - {name};
      isExtracting := isExtracting - {name};
      extractionErrors := extractionErrors - {name};
    }
  }

  /** One more file: its write, if any, goes on top. */
  lemma WrittenStep<V>(files: seq<RawFile>, i: nat, m: map<string, V>, write: nat -> Option<V>)
    requires i < |files|
    ensures Written(files, i + 1, m, write)
              == if IsImageType(files[i].mimeType) && write(i).Some?
                 then Written(files, i, m, write)[files[i].name := write(i).value]
                 else Written(files, i, m, write)
  {
  }

  /** Writes between `lo` and `n` that miss the name leave it as it was. */
  lemma {:induction false} WrittenUntouched<V>(files: seq<RawFile>, lo: nat, n: nat, m: map<string, V>,
                                               write: nat -> Option<V>, k: string)
    requires lo <= n <= |files|
    requires forall j :: lo <= j < n ==> !(IsImageType(files[j].mimeType) && files[j].name == k && write(j).Some?)
    ensures SameAt(Written(files, n, m, write), Written(files, lo, m, write), k)
  {
    if n > lo {
      WrittenUntouched(files, lo, n - 1, m, write, k);
    }
  }

  /** The last write under a name is the one that stays. */
  lemma WrittenLast<V>(files: seq<RawFile>, i: nat, n: nat, m: map<string, V>, write: nat -> Option<V>)
    requires i < n <= |files|
    requires IsImageType(files[i].mimeType) && write(i).Some?
    requires forall j :: i < j < n ==>
               !(IsImageType(files[j].mimeType) && files[j].name == files[i].name && write(j).Some?)
    ensures files[i].name in Written(files, n, m, write)
    ensures Written(files, n, m, write)[files[i].name] == write(i).value
  {
  }

  /** A value written for every image ends under every image's name. */
  lemma {:induction false} WrittenAlways<V>(files: seq<RawFile>, n: nat, m: map<string, V>, v: V, j: nat)
    requires j < n <= |files|
    requires IsImageType(files[j].mimeType)
    ensures files[j].name in Written(files, n, m, Always(v))
    ensures Written(files, n, m, Always(v))[files[j].name] == v
  {
    if !(IsImageType(files[n - 1].mimeType) && files[n - 1].name == files[j].name) {
      WrittenAlways(files, n - 1, m, v, j);
    }
  }

  /** Writes never remove a key. */
  lemma {:induction false} WrittenKeepsKeys<V>(files: seq<RawFile>, n: nat, m: map<string, V>,
                                               write: nat -> Option<V>, k: string)
    requires n <= |files|
    requires k in m
    ensures k in Written(files, n, m, write)
  {
    if n > 0 {
      WrittenKeepsKeys(files, n - 1, m, write, k);
    }
  }

  /** A name no selected image carries keeps its flag, text and error. */
  lemma UnselectedNameKept(files: seq<RawFile>, ocr: nat -> OcrOutcome, flags: map<string, bool>,
                           text: map<string, string>, errors: map<string, Option<string>>, k: string)
    requires !NamesAnImage(files, k)
    ensures SameAt(FlagsAfter(files, flags), flags, k)
    ensures SameAt(TextAfter(files, ocr, text), text, k)
    ensures SameAt(ErrorsAfter(files, ocr, errors), errors, k)
  {
    var n := |files|;
    WrittenUntouched(files, 0, n, flags, Always(true), k);
    WrittenUntouched(files, 0, n, Written(files, n, flags, Always(true)), Always(false), k);
    WrittenUntouched(files, 0, n, text, TextWrites(ocr), k);
    WrittenUntouched(files, 0, n, errors, Always(None), k);
    WrittenUntouched(files, 0, n, Written(files, n, errors, Always(None)), ErrorWrites(ocr), k);
  }

  /** Every selected image's name ends settled, with an error entry. */
  lemma SelectedImageSettled(files: seq<RawFile>, ocr: nat -> OcrOutcome, flags: map<string, bool>,
                             errors: map<string, Option<string>>, j: nat)
    requires j < |files| && IsImageType(files[j].mimeType)
    ensures files[j].name in FlagsAfter(files, flags) && !FlagsAfter(files, flags)[files[j].name]
    ensures files[j].name in ErrorsAfter(files, ocr, errors)
  {
    var n := |files|;
    WrittenAlways(files, n, Written(files, n, flags, Always(true)), false, j);
    WrittenAlways(files, n, errors, None, j);
    WrittenKeepsKeys(files, n, Written(files, n, errors, Always(None)), ErrorWrites(ocr), files[j].name);
  }

  /** The error under a name is the last failure among the images with that
      name: a later success does not clear it, because only the start of an
      extraction writes `null`, and every start runs before any settles. */
  lemma LastFailureKept(files: seq<RawFile>, ocr: nat -> OcrOutcome, errors: map<string, Option<string>>, i: nat)
    requires i < |files| && IsImageType(files[i].mimeType) && !ocr(i).Answered?
    requires forall j :: i < j < |files| && IsImageType(files[j].mimeType) && files[j].name == files[i].name ==>
               ocr(j).Answered?
    ensures files[i].name in ErrorsAfter(files, ocr, errors)
    ensures ErrorsAfter(files, ocr, errors)[files[i].name] == ErrorAfter(ocr(i))
  {
    WrittenLast(files, i, |files|, Written(files, |files|, errors, Always(None)), ErrorWrites(ocr));
  }

  /** A name whose selected images all succeed ends with a `null` error. */
  lemma NoFailureNoError(files: seq<RawFile>, ocr: nat -> OcrOutcome, errors: map<string, Option<string>>, i: nat)
    requires i < |files| && IsImageType(files[i].mimeType)
    requires forall j :: 0 <= j < |files| && IsImageType(files[j].mimeType) && files[j].name == files[i].name ==>
               ocr(j).Answered?
    ensures files[i].name in ErrorsAfter(files, ocr, errors)
    ensures ErrorsAfter(files, ocr, errors)[files[i].name] == None
  {
    var n := |files|;
    WrittenAlways(files, n, errors, None, i);
    WrittenUntouched(files, 0, n, Written(files, n, errors, Always(None)), ErrorWrites(ocr), files[i].name);
  }

  /** An image whose name no other selected file carries ends with exactly
      its own extraction's result: flag cleared, its text stored (or the old
      entry kept when it failed), and its own error. */
  lemma UniqueImageSettles(files: seq<RawFile>, ocr: nat -> OcrOutcome, flags: map<string, bool>,
                           text: map<string, string>, errors: map<string, Option<string>>, i: nat)
    requires i < |files| && IsImageType(files[i].mimeType)
    requires forall j :: 0 <= j < |files| && j != i ==> files[j].name != files[i].name
    ensures files[i].name in FlagsAfter(files, flags) && !FlagsAfter(files, flags)[files[i].name]
    ensures files[i].name in ErrorsAfter(files, ocr, errors)
    ensures ErrorsAfter(files, ocr, errors)[files[i].name] == ErrorAfter(ocr(i))
    ensures ExtractedValue(ocr(i)).Some? ==>
              && files[i].name in TextAfter(files, ocr, text)
              && TextAfter(files, ocr, text)[files[i].name] == ExtractedValue(ocr(i)).value
    ensures ExtractedValue(ocr(i)).None? ==> SameAt(TextAfter(files, ocr, text), text, files[i].name)
  {
    var n := |files|;
    SelectedImageSettled(files, ocr, flags, errors, i);
    if ocr(i).Answered? {
      NoFailureNoError(files, ocr, errors, i);
    } else {
      LastFailureKept(files, ocr, errors, i);
    }
    if ExtractedValue(ocr(i)).Some? {
      WrittenLast(files, i, n, text, TextWrites(ocr));
    } else {
      WrittenUntouched(files, 0, n, text, TextWrites(ocr), files[i].name);
    }
  }

  /** `hasText` is true exactly when the extraction resolved with a string,
      the "No text found" sentinel included: that string is never empty, so
      `!!text` only fails on `null`. */
  lemma HasTextMeansResolved(file: RawFile, outcome: OcrOutcome, url: string)
    requires IsImageType(file.mimeType)
    ensures PreviewFor(file, outcome, url).hasText <==> ExtractedValue(outcome).Some?
    ensures outcome == Answered(None) ==> PreviewFor(file, outcome, url).hasText
  {
  }
}
