/** JavaScript values as far as the upload and table screens inspect them:
    the language's truthiness rule (`if (x)`, `x || y`), array indexing that
    yields `undefined` past the end, object spread (`{ ...x }`), and the
    decimal rendering of a number inside a template string. */
module JsValues {

  datatype Option<+T> = None | Some(value: T)

  /** A settled promise: the resolved value, or the `message` of the error it
      was rejected with. */
  datatype Result<+T> = Success(value: T) | Failure(error: string)

  /** A JSON-like JavaScript value. Numbers are exact reals: `NaN` and the
      infinities never occur in the data these screens handle. */
  datatype JsValue =
    | Undefined
    | Null
    | Bool(b: bool)
    | Num(n: real)
    | Str(s: string)
    | Arr(items: seq<JsValue>)
    | Obj(fields: map<string, JsValue>)

  /** ToBoolean: `undefined`, `null`, `false`, `0` and `""` are falsy; every
      array and every object, even an empty one, is truthy. */
  predicate Truthy(v: JsValue) {
    match v
    case Undefined => false
    case Null => false
    case Bool(b) => b
    case Num(n) => n != 0.0
    case Str(s) => s != ""
    case Arr(_) => true
    case Obj(_) => true
  }

  /** `v || fallback` */
  function Or(v: JsValue, fallback: JsValue): (r: JsValue)
    ensures Truthy(v) ==> r == v
    ensures !Truthy(v) ==> r == fallback
  {
    if Truthy(v) then v else fallback
  }

  /** `||` is truthy when either side is, a truthy left side is kept and a
      falsy left side is dropped (the `x || null` and `x || {}` defaults).
      Chains of `||` group either way and `a || a` is `a`: the operator is
      the JavaScript one over every value, not only over those defaults. */
  lemma OrLaws(a: JsValue, b: JsValue, c: JsValue)
    ensures Truthy(Or(a, b)) <==> Truthy(a) || Truthy(b)
    ensures Or(a, Or(b, c)) == Or(Or(a, b), c)
    ensures !Truthy(a) ==> Or(a, b) == b
    ensures Truthy(a) ==> Or(a, b) == a
    ensures Or(a, a) == a
  {
  }

  const EmptyObject: JsValue := Obj(map[])

  /** `items[i]`: `undefined` past the end of the array. */
  function At(items: seq<JsValue>, i: nat): JsValue {
    if i < |items| then items[i] else Undefined
  }

  function DigitChar(d: nat): (c: char)
    requires d < 10
    ensures '0' <= c <= '9'
  {
    ('0' as int + d) as char
  }

  function DigitValue(c: char): nat
    requires '0' <= c <= '9'
  {
    c as int - '0' as int
  }

  /** The decimal string of a non-negative integer, as `${n}` renders it
      for every integer below 10^21 (larger ones print in exponent form,
      which no value here reaches): digits only, and no leading zero. */
  function NatToString(n: nat): (s: string)
    ensures |s| >= 1
    ensures forall i :: 0 <= i < |s| ==> '0' <= s[i] <= '9'
    ensures s[0] == '0' ==> n == 0
    ensures n < 10 <==> |s| == 1
  {
    if n < 10 then [DigitChar(n)] else NatToString(n / 10) + [DigitChar(n % 10)]
  }

  /** The number a string of decimal digits denotes. */
  function DecimalValue(s: string): nat
    requires forall i :: 0 <= i < |s| ==> '0' <= s[i] <= '9'
  {
    if s == [] then 0 else DecimalValue(s[..|s| - 1]) * 10 + DigitValue(s[|s| - 1])
  }

  /** Reading the rendered digits back gives the number. */
  lemma {:induction false} NatToStringRoundTrip(n: nat)
    ensures DecimalValue(NatToString(n)) == n
  {
    var s := NatToString(n);
    if n >= 10 {
      NatToStringRoundTrip(n / 10);
      assert s[..|s| - 1] == NatToString(n / 10);
    }
  }

  /** Different numbers render differently, so decimal indices name
      distinct properties. */
  lemma NatToStringInjective(m: nat, n: nat)
    ensures NatToString(m) == NatToString(n) ==> m == n
  {
    NatToStringRoundTrip(m);
    NatToStringRoundTrip(n);
  }

  /** `k` is the decimal rendering of some index. */
  predicate IsIndexKey(k: string) {
    (forall i :: 0 <= i < |k| ==> '0' <= k[i] <= '9') && NatToString(DecimalValue(k)) == k
  }

  /** The key of the last element is none of the earlier keys. */
  lemma IndexKeysDistinct(last: nat)
    ensures forall i :: 0 <= i < last ==> NatToString(i) != NatToString(last)
  {
    forall i | 0 <= i < last {
      NatToStringInjective(i, last);
    }
  }

  /** The own enumerable properties of an array or a string, keyed by their
      decimal index: element `i` under `${i}`, and no other key. */
  function IndexKeyed(items: seq<JsValue>): (m: map<string, JsValue>)
    ensures forall i :: 0 <= i < |items| ==> NatToString(i) in m && m[NatToString(i)] == items[i]
  {
    if items == [] then map[]
    else
      var last := |items| - 1;
      var prefix := IndexKeyed(items[..last]);
      IndexKeysDistinct(last);
      prefix[NatToString(last) := items[last]]
  }

  /** Every key of `IndexKeyed(items)` is the decimal rendering of an index
      below `|items|`. */
  lemma {:induction false} IndexKeyedKeys(items: seq<JsValue>)
    ensures forall k :: k in IndexKeyed(items) ==> IsIndexKey(k) && DecimalValue(k) < |items|
  {
    if items != [] {
      var last := |items| - 1;
      IndexKeyedKeys(items[..last]);
      NatToStringRoundTrip(last);
    }
  }

  /** The properties `{ ...v }` copies: an object's fields, the indexed
      elements of an array or the characters of a string, and nothing for
      `null`, `undefined`, booleans and numbers. */
  function Spread(v: JsValue): (m: map<string, JsValue>)
    ensures v.Obj? ==> m == v.fields
    ensures v.Arr? ==> forall i :: 0 <= i < |v.items| ==> NatToString(i) in m && m[NatToString(i)] == v.items[i]
    ensures v.Arr? ==> forall k :: k in m ==> IsIndexKey(k) && DecimalValue(k) < |v.items|
    ensures v.Str? ==> forall i :: 0 <= i < |v.s| ==> NatToString(i) in m && m[NatToString(i)] == Str([v.s[i]])
    ensures v.Str? ==> forall k :: k in m ==> IsIndexKey(k) && DecimalValue(k) < |v.s|
    ensures !(v.Obj? || v.Arr? || v.Str?) ==> m == map[]
  {
    match v
    case Obj(fields) => fields
    case Arr(items) =>
      IndexKeyedKeys(items);
      IndexKeyed(items)
    case Str(s) =>
      var chars := seq(|s|, i requires 0 <= i < |s| => Str([s[i]]));
      IndexKeyedKeys(chars);
      IndexKeyed(chars)
    case _ => map[]
  }
}
