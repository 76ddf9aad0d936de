/** Text as Python holds it - code points, lone surrogates included - and its UTF-8 encoding. */
module Utf8 {
  import opened FileSystem

  type CodePoint = c: nat | c < 0x110000
  type Text = seq<CodePoint>

  predicate Scalar(c: CodePoint) {
    !(0xD800 <= c < 0xE000)
  }

  predicate Encodable(t: Text) {
    forall i | 0 <= i < |t| :: Scalar(t[i])
  }

  function EncodePoint(c: CodePoint): (r: Bytes)
    ensures 1 <= |r| <= 4
  {
    if c < 0x80 then [c as Byte]
    else if c < 0x800 then [(0xC0 + c / 64) as Byte, (0x80 + c % 64) as Byte]
    else if c < 0x10000 then [(0xE0 + c / 4096) as Byte, (0x80 + c / 64 % 64) as Byte, (0x80 + c % 64) as Byte]
    else [(0xF0 + c / 262144) as Byte, (0x80 + c / 4096 % 64) as Byte, (0x80 + c / 64 % 64) as Byte, (0x80 + c % 64) as Byte]
  }

  function Encode(t: Text): Bytes {
    if t == [] then [] else EncodePoint(t[0]) + Encode(t[1..])
  }

  /** The code point at the head of an encoded text, by the lead byte. */
  function Head(b: Bytes): int
    requires b != []
  {
    var lead := b[0] as int;
    if lead < 0x80 || |b| < 2 then lead
    else if lead < 0xE0 || |b| < 3 then (lead - 0xC0) * 64 + (b[1] as int - 0x80)
    else if lead < 0xF0 || |b| < 4 then (lead - 0xE0) * 4096 + (b[1] as int - 0x80) * 64 + (b[2] as int - 0x80)
    else (lead - 0xF0) * 262144 + (b[1] as int - 0x80) * 4096 + (b[2] as int - 0x80) * 64 + (b[3] as int - 0x80)
  }

  lemma HeadReadsBack(c: CodePoint, rest: Bytes)
    ensures Head(EncodePoint(c) + rest) == c
  {
    var b := EncodePoint(c) + rest;
    assert forall i | 0 <= i < |EncodePoint(c)| :: b[i] == EncodePoint(c)[i];
    assert c / 4096 == c / 64 / 64 && c / 262144 == c / 4096 / 64;
  }

  /** No two texts share an encoding. */
  lemma {:induction false} EncodeIsInjective(s: Text, t: Text)
    requires Encode(s) == Encode(t)
    ensures s == t
    decreases |s|
  {
    if s != [] && t != [] {
      HeadReadsBack(s[0], Encode(s[1..]));
      HeadReadsBack(t[0], Encode(t[1..]));
      assert Encode(s)[|EncodePoint(s[0])|..] == Encode(s[1..]);
      assert Encode(t)[|EncodePoint(t[0])|..] == Encode(t[1..]);
      EncodeIsInjective(s[1..], t[1..]);
      assert s == [s[0]] + s[1..] && t == [t[0]] + t[1..];
    }
  }

  lemma {:induction false} EncodedLength(t: Text)
    ensures |t| <= |Encode(t)| <= 4 * |t|
  {
    if t != [] {
      EncodedLength(t[1..]);
    }
  }
}
