/**
 Canonical JSON (section 3.2 of RFC 8785) as far as evidence depends on it: which values are encoded,
 which of them share an encoding, and what decoding an encoding gives back.
 */
module Canonical {
  import opened FileSystem
  import U = Utf8

  type Text = U.Text

  /** Values as the compiler holds them; the order of an object's members is lost in the encoding. */
  datatype Value =
    | Null
    | Bool(b: bool)
    | Int(i: int)
    | Float(x: real)
    | NotFinite
    | Str(t: Text)
    | Arr(items: seq<Value>)
    | Obj(members: map<Text, Value>)

  const SAFE: int := 9007199254740991
  const MAX_NESTING_DEPTH: nat := 64
  const EXPONENT_FROM: real := 1000000000000000000000.0

  /** `_json_problem` finds nothing to object to. */
  predicate Encodable(j: Value, depth: nat)
    decreases j
  {
    && depth <= MAX_NESTING_DEPTH
    && match j
       case Int(i) => -SAFE <= i <= SAFE
       case NotFinite => false
       case Str(t) => U.Encodable(t)
       case Arr(items) => forall i | 0 <= i < |items| :: Encodable(items[i], depth + 1)
       case Obj(members) => forall k <- members :: U.Encodable(k) && depth < MAX_NESTING_DEPTH && Encodable(members[k], depth + 1)
       case _ => true
  }

  /** A float that the encoding spells without fraction and exponent, and that reads back as an integer. */
  predicate SpelledAsInt(x: real) {
    x.Floor as real == x && -EXPONENT_FROM < x < EXPONENT_FROM
  }

  /** What is left of a value after it is encoded and decoded. */
  function Norm(j: Value): Value
    decreases j
  {
    match j
    case Float(x) => if SpelledAsInt(x) then Int(x.Floor) else j
    case Arr(items) => Arr(seq(|items|, i requires 0 <= i < |items| => Norm(items[i])))
    case Obj(members) => Obj(map k | k in members :: Norm(members[k]))
    case _ => j
  }

  lemma {:induction false} NormIsIdempotent(j: Value)
    ensures Norm(Norm(j)) == Norm(j)
    decreases j
  {
    match j
    case Arr(items) =>
      forall i | 0 <= i < |items| ensures Norm(Norm(items[i])) == Norm(items[i]) {
        NormIsIdempotent(items[i]);
      }
      assert Norm(Norm(j)).items == Norm(j).items;
    case Obj(members) =>
      forall k | k in members ensures Norm(Norm(members[k])) == Norm(members[k]) {
        NormIsIdempotent(members[k]);
      }
      assert Norm(Norm(j)).members == Norm(j).members;
    case _ =>
  }

  /** No float that would read back as an integer outside the safe range. */
  predicate NoWideFloat(j: Value)
    decreases j
  {
    match j
    case Float(x) => SpelledAsInt(x) ==> -SAFE <= x.Floor <= SAFE
    case Arr(items) => forall i | 0 <= i < |items| :: NoWideFloat(items[i])
    case Obj(members) => forall k <- members :: NoWideFloat(members[k])
    case _ => true
  }

  /** An encoded value can be encoded again exactly when it holds no such float. */
  lemma {:induction false} ReencodableIffNoWideFloat(j: Value, depth: nat)
    requires Encodable(j, depth)
    ensures Encodable(Norm(j), depth) <==> NoWideFloat(j)
    decreases j
  {
    match j
    case Arr(items) =>
      forall i | 0 <= i < |items| ensures Encodable(Norm(items[i]), depth + 1) <==> NoWideFloat(items[i]) {
        ReencodableIffNoWideFloat(items[i], depth + 1);
      }
      assert forall i | 0 <= i < |items| :: Norm(j).items[i] == Norm(items[i]);
    case Obj(members) =>
      forall k | k in members ensures Encodable(Norm(members[k]), depth + 1) <==> NoWideFloat(members[k]) {
        ReencodableIffNoWideFloat(members[k], depth + 1);
      }
      assert forall k <- members :: Norm(j).members[k] == Norm(members[k]);
    case _ =>
  }

  // ---------------------------------------------------------------- placeholders

  type Pattern = Text -> bool

  /** A reserved key, a token-bearing key or a token-bearing text somewhere in the value. */
  predicate Tainted(reserved: Text, p: Pattern, j: Value)
    decreases j
  {
    match j
    case Str(t) => p(t)
    case Arr(items) => exists i | 0 <= i < |items| :: Tainted(reserved, p, items[i])
    case Obj(members) => exists k <- members :: k == reserved || p(k) || Tainted(reserved, p, members[k])
    case _ => false
  }

  lemma {:induction false} NormKeepsTaint(reserved: Text, p: Pattern, j: Value)
    ensures Tainted(reserved, p, Norm(j)) <==> Tainted(reserved, p, j)
    decreases j
  {
    match j
    case Arr(items) =>
      forall i | 0 <= i < |items| ensures Tainted(reserved, p, Norm(j).items[i]) <==> Tainted(reserved, p, items[i]) {
        NormKeepsTaint(reserved, p, items[i]);
      }
    case Obj(members) =>
      forall k | k in members ensures Tainted(reserved, p, Norm(j).members[k]) <==> Tainted(reserved, p, members[k]) {
        NormKeepsTaint(reserved, p, members[k]);
      }
      assert Norm(j).members.Keys == members.Keys;
    case _ =>
  }

  // ---------------------------------------------------------------- encodings

  /** A byte string: the encoding of a value, or anything else. */
  datatype Blob = Rendered(normal: Value) | Raw(bytes: Bytes)

  /** `canonical_json_bytes`: two values share an encoding exactly when they have the same normal form. */
  function Encode(j: Value): Option<Blob> {
    if Encodable(j, 0) then Some(Rendered(Norm(j))) else None
  }

  /** How a byte string that is no encoding is read as JSON, if at all. */
  type Loader = Bytes -> Option<Value>

  function Loads(other: Loader, b: Blob): Option<Value> {
    match b
    case Rendered(normal) => Some(normal)
    case Raw(bytes) => other(bytes)
  }

  /** `_decode_stored_canonical_json`: only a byte string that is its own value's encoding is accepted. */
  function DecodeStored(other: Loader, b: Blob): (r: Option<Value>)
    ensures r.Some? ==> Encode(r.value) == Some(b)
  {
    var value := Loads(other, b);
    if value.Some? && Encode(value.value) == Some(b) then value else None
  }

  /** An encoding is accepted from storage exactly when its value holds no wide float, and then reads back as
      the normal form. */
  lemma EncodingReadsBack(other: Loader, j: Value)
    requires Encode(j).Some?
    ensures DecodeStored(other, Encode(j).value) == if NoWideFloat(j) then Some(Norm(j)) else None
  {
    NormIsIdempotent(j);
    ReencodableIffNoWideFloat(j, 0);
  }

  /** There are such values: the float 10^18 is admitted, and its evidence is refused afterwards. */
  lemma WideFloatIsRefused(other: Loader)
    ensures exists j :: Encode(j).Some? && DecodeStored(other, Encode(j).value).None?
  {
    var x := 1000000000000000000.0;
    assert x.Floor == 1000000000000000000;
    EncodingReadsBack(other, Float(x));
    assert !NoWideFloat(Float(x));
  }
}
