/** The content-type rule every upload path applies: a declared type that
    starts with "image/" is an image; any other file is labelled with the
    second "/"-separated segment of its type, or "document" when that
    segment is missing or empty (`file.type.split("/")[1] || "document"`). */
module MimeTypes {
  import opened JsValues

  /** `s.startsWith(prefix)` */
  predicate StartsWith(s: string, prefix: string) {
    |prefix| <= |s| && s[..|prefix|] == prefix
  }

  const ImagePrefix := "image/"
  const ImageKind := "image"
  const DocumentKind := "document"

  /** `type.startsWith("image/")` */
  predicate IsImageType(mimeType: string) {
    StartsWith(mimeType, ImagePrefix)
  }

  /** `s.split(sep)` for a one-character separator: the maximal pieces
      between separators, in order, empty pieces included. */
  function Split(s: string, sep: char): (parts: seq<string>)
    ensures |parts| >= 1
    ensures forall i :: 0 <= i < |parts| ==> sep !in parts[i]
    ensures |parts| == 1 <==> sep !in s
  {
    if s == [] then [""]
    else
      var rest := Split(s[1..], sep);
      if s[0] == sep then [""] + rest
      else [[s[0]] + rest[0]] + rest[1..]
  }

  /** `parts.join(sep)` */
  function Join(parts: seq<string>, sep: char): string {
    if parts == [] then ""
    else parts[0] + (if |parts| == 1 then "" else [sep] + Join(parts[1..], sep))
  }

  /** Joining the pieces of a split gives back the string. */
  lemma {:induction false} JoinSplit(s: string, sep: char)
    ensures Join(Split(s, sep), sep) == s
  {
    if s != [] {
      JoinSplit(s[1..], sep);
      var rest := Split(s[1..], sep);
      if s[0] == sep {
        assert Join(Split(s, sep), sep) == [sep] + Join(rest, sep);
      } else {
        var parts := [[s[0]] + rest[0]] + rest[1..];
        assert parts[1..] == rest[1..];
        assert Join(parts, sep) == [s[0]] + Join(rest, sep);
      }
      assert s == [s[0]] + s[1..];
    }
  }

  /** A string without the separator is a single piece. */
  lemma {:induction false} SplitWithoutSeparator(x: string, sep: char)
    requires sep !in x
    ensures Split(x, sep) == [x]
  {
    if x != [] {
      assert sep !in x[1..];
      SplitWithoutSeparator(x[1..], sep);
      assert [x[0]] + x[1..] == x;
    }
  }

  /** A separator-free prefix followed by a separator is the first piece. */
  lemma {:induction false} SplitAtFirstSeparator(x: string, y: string, sep: char)
    requires sep !in x
    ensures Split(x + [sep] + y, sep) == [x] + Split(y, sep)
  {
    var s := x + [sep] + y;
    if x == [] {
      assert s[0] == sep && s[1..] == y;
    } else {
      assert s[0] == x[0] && s[1..] == x[1..] + [sep] + y;
      assert sep !in x[1..];
      SplitAtFirstSeparator(x[1..], y, sep);
      assert [x[0]] + x[1..] == x;
    }
  }

  /** Splitting a join of separator-free pieces gives back the pieces. */
  lemma {:induction false} SplitJoin(parts: seq<string>, sep: char)
    requires |parts| >= 1
    requires forall i :: 0 <= i < |parts| ==> sep !in parts[i]
    ensures Split(Join(parts, sep), sep) == parts
  {
    if |parts| == 1 {
      assert Join(parts, sep) == parts[0];
      SplitWithoutSeparator(parts[0], sep);
    } else {
      assert forall i :: 0 <= i < |parts| - 1 ==> parts[1..][i] == parts[i + 1];
      SplitJoin(parts[1..], sep);
      assert Join(parts, sep) == parts[0] + [sep] + Join(parts[1..], sep);
      SplitAtFirstSeparator(parts[0], Join(parts[1..], sep), sep);
      assert [parts[0]] + parts[1..] == parts;
    }
  }

  /** `type.split("/")[1]`, which is `undefined` when the type has no "/". */
  function SecondSegment(mimeType: string): (segment: Option<string>)
    ensures segment.Some? <==> '/' in mimeType
    ensures segment.Some? ==> '/' !in segment.value
  {
    var parts := Split(mimeType, '/');
    if |parts| >= 2 then Some(parts[1]) else None
  }

  /** The label a file record gets for its declared content type. */
  function ClassifyType(mimeType: string): (kind: string)
    ensures kind != ""
    ensures '/' !in kind
    ensures IsImageType(mimeType) ==> kind == ImageKind
    ensures '/' !in mimeType ==> kind == DocumentKind
  {
    if IsImageType(mimeType) then
      assert mimeType[5] == ImagePrefix[5] == '/';
      ImageKind
    else
      match SecondSegment(mimeType)
      case Some(segment) => if segment != "" then segment else DocumentKind
      case None => DocumentKind
  }

  /** The second segment of `top/sub` or `top/sub/more` is `sub`. */
  lemma SecondSegmentOf(top: string, sub: string, more: string)
    requires '/' !in top && '/' !in sub
    requires more == [] || more[0] == '/'
    ensures SecondSegment(top + ['/'] + sub + more) == Some(sub)
  {
    var t := top + ['/'] + sub + more;
    assert t == top + ['/'] + (sub + more);
    SplitAtFirstSeparator(top, sub + more, '/');
    if more == [] {
      assert sub + more == sub;
      SplitWithoutSeparator(sub, '/');
    } else {
      assert sub + more == sub + ['/'] + more[1..];
      SplitAtFirstSeparator(sub, more[1..], '/');
    }
  }

  /** A non-image type `top/sub` or `top/sub/more` is labelled `sub`, or
      "document" when `sub` is empty. */
  lemma ClassifyNonImage(top: string, sub: string, more: string)
    requires '/' !in top && '/' !in sub
    requires more == [] || more[0] == '/'
    requires !IsImageType(top + ['/'] + sub + more)
    ensures ClassifyType(top + ['/'] + sub + more) == if sub == "" then DocumentKind else sub
  {
    SecondSegmentOf(top, sub, more);
  }

  /** The label is "image" exactly for image types and for non-image types
      whose second segment is literally "image". */
  lemma ImageKindExactly(mimeType: string)
    ensures (ClassifyType(mimeType) == ImageKind)
        <==> (IsImageType(mimeType) || SecondSegment(mimeType) == Some(ImageKind))
  {
  }
}
