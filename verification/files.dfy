/** Browser file handles as the screens see them, the drop path's copy of
    the dropped files into a `DataTransfer`, and the remove-by-name filter
    (`list.filter(f => f.name !== name)`) every screen applies to its lists. */
module Files {

  /** A `File` object: its display name, declared content type and size in
      bytes. `handle` stands for the object's identity, so two files with the
      same name, type and size stay distinct. */
  datatype RawFile = RawFile(name: string, mimeType: string, size: nat, handle: nat)

  function FileName(f: RawFile): string { f.name }

  /** `dropped.forEach(file => dataTransfer.items.add(file))`, then
      `dataTransfer.files`: the drop handlers hand the same files, in the same
      order, to the change handler a click selection goes through. */
  method TransferFiles(dropped: seq<RawFile>) returns (files: seq<RawFile>)
    ensures files == dropped
  {
    files := [];
    var i := 0;
    while i < |dropped|
      invariant 0 <= i <= |dropped|
      invariant files == dropped[..i]
    {
      files := files + [dropped[i]];
      i := i + 1;
    }
    assert dropped[..i] == dropped;
  }

  /** `xs.filter(x => nameOf(x) !== name)` */
  function WithoutName<T(==)>(xs: seq<T>, nameOf: T -> string, name: string): (r: seq<T>)
    ensures |r| <= |xs|
    ensures forall i :: 0 <= i < |r| ==> nameOf(r[i]) != name
    ensures forall i :: 0 <= i < |r| ==> r[i] in xs
    ensures forall i :: 0 <= i < |xs| && nameOf(xs[i]) != name ==> xs[i] in r
  {
    if xs == [] then []
    else (if nameOf(xs[0]) == name then [] else [xs[0]]) + WithoutName(xs[1..], nameOf, name)
  }

  /** The filter works element by element, so it keeps the relative order of
      what it keeps: filtering a concatenation filters each part. */
  lemma {:induction false} WithoutNameAppend<T>(xs: seq<T>, ys: seq<T>, nameOf: T -> string, name: string)
    ensures WithoutName(xs + ys, nameOf, name) == WithoutName(xs, nameOf, name) + WithoutName(ys, nameOf, name)
  {
    if xs != [] {
      assert (xs + ys)[0] == xs[0] && (xs + ys)[1..] == xs[1..] + ys;
      WithoutNameAppend(xs[1..], ys, nameOf, name);
    } else {
      assert xs + ys == ys;
    }
  }

  /** A list that holds no entry with the name is left exactly as it was. */
  lemma {:induction false} WithoutAbsentName<T>(xs: seq<T>, nameOf: T -> string, name: string)
    requires forall i :: 0 <= i < |xs| ==> nameOf(xs[i]) != name
    ensures WithoutName(xs, nameOf, name) == xs
  {
    if xs != [] {
      WithoutAbsentName(xs[1..], nameOf, name);
      assert [xs[0]] + xs[1..] == xs;
    }
  }

  /** Removing a name twice is removing it once. */
  lemma WithoutNameIdempotent<T>(xs: seq<T>, nameOf: T -> string, name: string)
    ensures WithoutName(WithoutName(xs, nameOf, name), nameOf, name) == WithoutName(xs, nameOf, name)
  {
    WithoutAbsentName(WithoutName(xs, nameOf, name), nameOf, name);
  }

  /** Every entry that shares the name goes, not just one of them: the
      number of entries removed is the number that carry the name. */
  lemma {:induction false} WithoutNameCount<T>(xs: seq<T>, nameOf: T -> string, name: string)
    ensures |WithoutName(xs, nameOf, name)| == |xs| - NameCount(xs, nameOf, name)
  {
    if xs != [] {
      WithoutNameCount(xs[1..], nameOf, name);
    }
  }

  /** How many entries of `xs` carry the name. */
  function NameCount<T>(xs: seq<T>, nameOf: T -> string, name: string): nat {
    if xs == [] then 0
    else (if nameOf(xs[0]) == name then 1 else 0) + NameCount(xs[1..], nameOf, name)
  }
}
