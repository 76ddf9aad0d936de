/** Base 64 (section 4 of RFC 4648) and the canonical spelling the resume-context envelope insists on. */
module Base64 {
  import opened FileSystem
  import opened Utf8

  const PAD: CodePoint := 61

  function Digit(n: nat): CodePoint
    requires n < 64
  {
    if n < 26 then 65 + n else if n < 52 then 71 + n else if n < 62 then n - 4 else if n == 62 then 43 else 47
  }

  function ValueOf(c: CodePoint): Option<nat> {
    if 65 <= c < 91 then Some(c - 65)
    else if 97 <= c < 123 then Some(c - 71)
    else if 48 <= c < 58 then Some(c + 4)
    else if c == 43 then Some(62)
    else if c == 47 then Some(63)
    else None
  }

  lemma DigitReadsBack(n: nat)
    requires n < 64
    ensures ValueOf(Digit(n)) == Some(n) && Digit(n) != PAD
  {}

  function Group(a: nat, b: nat, c: nat, d: nat): Text
    requires a < 64 && b < 64 && c < 64 && d < 64
  {
    [Digit(a), Digit(b), Digit(c), Digit(d)]
  }

  /** Three bytes as four digits. */
  function Split(x: Byte, y: Byte, z: Byte): Text {
    Group(x as nat / 4, x as nat % 4 * 16 + y as nat / 16, y as nat % 16 * 4 + z as nat / 64, z as nat % 64)
  }

  /** `base64.b64encode`. */
  function Encode(b: Bytes): Text {
    if b == [] then []
    else
      var x := b[0] as nat;
      if |b| == 1 then [Digit(x / 4), Digit(x % 4 * 16), PAD, PAD]
      else
        var y := b[1] as nat;
        if |b| == 2 then [Digit(x / 4), Digit(x % 4 * 16 + y / 16), Digit(y % 16 * 4), PAD]
        else Split(b[0], b[1], b[2]) + Encode(b[3..])
  }

  function First(a: nat, b: nat): Byte
    requires a < 64 && b < 64
  {
    (a * 4 + b / 16) as Byte
  }

  function Second(b: nat, c: nat): Byte
    requires b < 64 && c < 64
  {
    (b % 16 * 16 + c / 4) as Byte
  }

  function Join(a: nat, b: nat, c: nat, d: nat): Bytes
    requires a < 64 && b < 64 && c < 64 && d < 64
  {
    [First(a, b), Second(b, c), (c % 4 * 64 + d) as Byte]
  }

  /** A decoder that, like Python's, does not look at the bits left over in a padded group. */
  function Decode(t: Text): Option<Bytes> {
    if t == [] then Some([])
    else if |t| < 4 then None
    else
      var a, b, c, d := ValueOf(t[0]), ValueOf(t[1]), ValueOf(t[2]), ValueOf(t[3]);
      if a.None? || b.None? then None
      else if |t| == 4 && t[2] == PAD && t[3] == PAD then Some([First(a.value, b.value)])
      else if c.None? then None
      else if |t| == 4 && t[3] == PAD then Some([First(a.value, b.value), Second(b.value, c.value)])
      else if d.None? then None
      else
        var rest := Decode(t[4..]);
        if rest.None? then None else Some(Join(a.value, b.value, c.value, d.value) + rest.value)
  }

  lemma FirstReadsBack(x: nat, y: nat)
    requires x < 256 && y < 16
    ensures x / 4 * 4 + (x % 4 * 16 + y) / 16 == x
  {
    assert (x % 4 * 16 + y) / 16 == x % 4;
  }

  lemma SecondReadsBack(x: nat, y: nat, z: nat)
    requires x < 4 && y < 256 && z < 4
    ensures (x * 16 + y / 16) % 16 * 16 + (y % 16 * 4 + z) / 4 == y
  {
    assert (x * 16 + y / 16) % 16 == y / 16;
    assert (y % 16 * 4 + z) / 4 == y % 16;
  }

  lemma JoinUndoesSplit(x: Byte, y: Byte, z: Byte)
    ensures Join(x as nat / 4, x as nat % 4 * 16 + y as nat / 16, y as nat % 16 * 4 + z as nat / 64, z as nat % 64) == [x, y, z]
  {
    FirstReadsBack(x as nat, y as nat / 16);
    SecondReadsBack(x as nat % 4, y as nat, z as nat / 64);
    assert (y as nat % 16 * 4 + z as nat / 64) % 4 == z as nat / 64;
  }

  lemma DecodesGroup(a: nat, b: nat, c: nat, d: nat, rest: Text)
    requires a < 64 && b < 64 && c < 64 && d < 64 && Decode(rest).Some?
    ensures Decode(Group(a, b, c, d) + rest) == Some(Join(a, b, c, d) + Decode(rest).value)
  {
    var t := Group(a, b, c, d) + rest;
    assert t[0] == Digit(a) && t[1] == Digit(b) && t[2] == Digit(c) && t[3] == Digit(d) && t[4..] == rest;
    DigitReadsBack(a);
    DigitReadsBack(b);
    DigitReadsBack(c);
    DigitReadsBack(d);
  }

  lemma DecodesOne(a: nat, b: nat)
    requires a < 64 && b < 64
    ensures Decode([Digit(a), Digit(b), PAD, PAD]) == Some([First(a, b)])
  {
    DigitReadsBack(a);
    DigitReadsBack(b);
  }

  lemma DecodesTwo(a: nat, b: nat, c: nat)
    requires a < 64 && b < 64 && c < 64
    ensures Decode([Digit(a), Digit(b), Digit(c), PAD]) == Some([First(a, b), Second(b, c)])
  {
    DigitReadsBack(a);
    DigitReadsBack(b);
    DigitReadsBack(c);
  }

  /** Decoding undoes encoding, whatever the length. */
  lemma {:induction false} DecodeUndoesEncode(b: Bytes)
    ensures Decode(Encode(b)) == Some(b)
    decreases |b|
  {
    if |b| == 1 {
      RoundTripOne(b);
    } else if |b| == 2 {
      RoundTripTwo(b);
    } else if |b| >= 3 {
      DecodeUndoesEncode(b[3..]);
      RoundTripGroup(b[0], b[1], b[2], b[3..], Encode(b[3..]));
      assert b == [b[0], b[1], b[2]] + b[3..];
    }
  }

  lemma {:induction false} RoundTripOne(b: Bytes)
    requires |b| == 1
    ensures Decode(Encode(b)) == Some(b)
  {
    var x := b[0] as nat;
    DecodesOne(x / 4, x % 4 * 16);
    FirstReadsBack(x, 0);
    assert Encode(b) == [Digit(x / 4), Digit(x % 4 * 16), PAD, PAD];
    assert b == [b[0]];
  }

  lemma {:induction false} RoundTripTwo(b: Bytes)
    requires |b| == 2
    ensures Decode(Encode(b)) == Some(b)
  {
    var x, y := b[0] as nat, b[1] as nat;
    DecodesTwo(x / 4, x % 4 * 16 + y / 16, y % 16 * 4);
    FirstReadsBack(x, y / 16);
    SecondReadsBack(x % 4, y, 0);
    assert Encode(b) == [Digit(x / 4), Digit(x % 4 * 16 + y / 16), Digit(y % 16 * 4), PAD];
    assert b == [b[0], b[1]];
  }

  lemma {:induction false} RoundTripGroup(x: Byte, y: Byte, z: Byte, tail: Bytes, rest: Text)
    requires Decode(rest) == Some(tail)
    ensures Decode(Split(x, y, z) + rest) == Some([x, y, z] + tail)
  {
    DecodesGroup(x as nat / 4, x as nat % 4 * 16 + y as nat / 16, y as nat % 16 * 4 + z as nat / 64, z as nat % 64, rest);
    JoinUndoesSplit(x, y, z);
  }

  // ---------------------------------------------------------------- the envelope's check

  type Decoder = Text -> Option<Bytes>

  /** The envelope decodes the text and asks for the same text back. */
  predicate AcceptsSpelling(decode: Decoder, data: Text) {
    decode(data).Some? && Encode(decode(data).value) == data
  }

  /** Whatever else the decoder tolerates, as long as it undoes the encoder the envelope accepts exactly the
      canonical spellings, and each stands for one payload only. */
  lemma AcceptsExactlyCanonical(decode: Decoder, data: Text)
    requires forall b :: decode(Encode(b)) == Some(b)
    ensures AcceptsSpelling(decode, data) <==> exists b :: Encode(b) == data
    ensures forall b :: Encode(b) == data ==> decode(data) == Some(b)
  {
    if AcceptsSpelling(decode, data) {
      assert Encode(decode(data).value) == data;
    }
  }

  /** The re-encoding is needed: the decoder also takes a spelling with bits left over. */
  lemma DecoderIsTolerant()
    ensures exists data, b :: Decode(data) == Some(b) && Encode(b) != data && Decode(Encode(b)) == Decode(data)
  {
    var data := [Digit(16), Digit(17), PAD, PAD];
    DecodesOne(16, 17);
    DecodeUndoesEncode([65]);
    assert Encode([65])[1] == Digit(16) != data[1];
  }
}
