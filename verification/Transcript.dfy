/**
 The continuation identity: a digest over a length-framed transcript of five evidence fields.
 */
module Transcript {
  import opened FileSystem
  import opened Utf8

  /** What is hashed before the fields: the protocol name, NUL terminated. */
  type Digest = Text
  type Hash = Bytes -> Digest

  datatype Field = Field(name: Bytes, value: Bytes)

  function Power(w: nat): nat {
    if w == 0 then 1 else 256 * Power(w - 1)
  }

  /** `int.to_bytes(width, "big")`. */
  function BigEndian(width: nat, n: nat): (r: Bytes)
    ensures |r| == width
  {
    if width == 0 then [] else BigEndian(width - 1, n / 256) + [(n % 256) as Byte]
  }

  function Number(b: Bytes): nat {
    if b == [] then 0 else 256 * Number(b[..|b| - 1]) + b[|b| - 1] as nat
  }

  lemma {:induction false} NumberReadsBack(width: nat, n: nat)
    requires n < Power(width)
    ensures Number(BigEndian(width, n)) == n
  {
    if width > 0 {
      NumberReadsBack(width - 1, n / 256);
      assert BigEndian(width, n)[..width - 1] == BigEndian(width - 1, n / 256);
    }
  }

  predicate Framable(f: Field) {
    |f.name| < Power(4) && |f.value| < Power(8)
  }

  function Frame(f: Field): Bytes {
    BigEndian(4, |f.name|) + f.name + BigEndian(8, |f.value|) + f.value
  }

  function Body(fields: seq<Field>): Bytes {
    if fields == [] then [] else Frame(fields[0]) + Body(fields[1..])
  }

  // ---------------------------------------------------------------- the framing can be undone

  /** Reads one frame off the front. */
  function Unframe(b: Bytes): Option<(Field, Bytes)> {
    if |b| < 4 then None
    else
      var n := Number(b[..4]);
      if |b| < 12 + n then None
      else
        var m := Number(b[4 + n..12 + n]);
        if |b| < 12 + n + m then None
        else Some((Field(b[4..4 + n], b[12 + n..12 + n + m]), b[12 + n + m..]))
  }

  lemma UnframeUndoesFrame(f: Field, rest: Bytes)
    requires Framable(f)
    ensures Unframe(Frame(f) + rest) == Some((f, rest))
  {
    var b := Frame(f) + rest;
    var n, m := |f.name|, |f.value|;
    NumberReadsBack(4, n);
    NumberReadsBack(8, m);
    assert b[..4] == BigEndian(4, n);
    assert b[4..4 + n] == f.name;
    assert b[4 + n..12 + n] == BigEndian(8, m);
    assert b[12 + n..12 + n + m] == f.value;
    assert b[12 + n + m..] == rest;
  }

  /** The transcript determines its fields: their number, their names and their values. */
  lemma {:induction false} BodyIsInjective(f: seq<Field>, g: seq<Field>)
    requires (forall x <- f :: Framable(x)) && (forall x <- g :: Framable(x))
    requires Body(f) == Body(g)
    ensures f == g
    decreases |f|
  {
    if f != [] && g != [] {
      UnframeUndoesFrame(f[0], Body(f[1..]));
      UnframeUndoesFrame(g[0], Body(g[1..]));
      BodyIsInjective(f[1..], g[1..]);
      assert f == [f[0]] + f[1..] && g == [g[0]] + g[1..];
    }
  }

  // ---------------------------------------------------------------- the transcript loop

  predicate Ascii(t: Text) {
    forall i | 0 <= i < |t| :: t[i] < 128
  }

  /** What `_sha256_transcript` accepts: ASCII names, values without lone surrogates, lengths that fit. */
  predicate Accepted(f: (Text, Text)) {
    Ascii(f.0) && Encodable(f.1) && Framable(Encoded(f))
  }

  /** That is: no name beyond ASCII, no lone surrogate in a value, and lengths below 2^32 and 2^64 bytes. */
  lemma AcceptedMeans(f: (Text, Text))
    ensures Accepted(f) <==>
              && (forall k | 0 <= k < |f.0| :: f.0[k] < 128)
              && (forall k | 0 <= k < |f.1| :: f.1[k] < 0xD800 || 0xE000 <= f.1[k])
              && |Encode(f.0)| < 0x1_0000_0000 && |Encode(f.1)| < 0x1_0000_0000_0000_0000
  {
    assert Power(4) == 0x1_0000_0000;
    assert Power(8) == Power(4) * 0x1_0000_0000;
  }

  function Encoded(f: (Text, Text)): Field {
    Field(Encode(f.0), Encode(f.1))
  }

  function EncodedAll(fields: seq<(Text, Text)>): seq<Field> {
    seq(|fields|, i requires 0 <= i < |fields| => Encoded(fields[i]))
  }

  /** Four updates of the running digest take one field in. */
  lemma Feed(fed: Bytes, fields: seq<Field>, f: Field)
    requires fields != [] && fields[0] == f
    ensures fed + Body(fields) == fed + BigEndian(4, |f.name|) + f.name + BigEndian(8, |f.value|) + f.value + Body(fields[1..])
  {}

  /** `_sha256_transcript`: the running digest is the hash of everything fed to it. */
  method Sha256Transcript(hash: Hash, prefix: Bytes, fields: seq<(Text, Text)>) returns (r: Option<Digest>)
    ensures r.Some? <==> forall f <- fields :: Accepted(f)
    ensures r.Some? ==> r.value == hash(prefix + Body(EncodedAll(fields)))
  {
    var fed := prefix;
    ghost var all := EncodedAll(fields);
    for i := 0 to |fields|
      invariant forall k | 0 <= k < i :: Accepted(fields[k])
      invariant fed + Body(all[i..]) == prefix + Body(all)
    {
      if !Accepted(fields[i]) {
        return None;
      }
      var f := Encoded(fields[i]);
      Feed(fed, all[i..], f);
      assert all[i..][1..] == all[i + 1..];
      fed := fed + BigEndian(4, |f.name|) + f.name + BigEndian(8, |f.value|) + f.value;
    }
    assert fed == prefix + Body(all);
    r := Some(hash(fed));
  }

  lemma EncodedIsFramable(f: seq<(Text, Text)>)
    requires forall x <- f :: Accepted(x)
    ensures forall x <- EncodedAll(f) :: Framable(x)
  {
    forall i | 0 <= i < |f| ensures Framable(EncodedAll(f)[i]) {
      assert Accepted(f[i]);
    }
  }

  /** Field sequences within the length bounds are told apart by their transcripts. */
  lemma TranscriptIsInjective(prefix: Bytes, f: seq<(Text, Text)>, g: seq<(Text, Text)>)
    requires (forall x <- f :: Accepted(x)) && (forall x <- g :: Accepted(x))
    requires prefix + Body(EncodedAll(f)) == prefix + Body(EncodedAll(g))
    ensures f == g
  {
    var a, b := EncodedAll(f), EncodedAll(g);
    assert Body(a) == (prefix + Body(a))[|prefix|..] == (prefix + Body(b))[|prefix|..] == Body(b);
    EncodedIsFramable(f);
    EncodedIsFramable(g);
    BodyIsInjective(a, b);
    forall i | 0 <= i < |f| ensures f[i] == g[i] {
      assert Encoded(f[i]) == a[i] == b[i] == Encoded(g[i]);
      EncodeIsInjective(f[i].0, g[i].0);
      EncodeIsInjective(f[i].1, g[i].1);
    }
  }

  // ---------------------------------------------------------------- the continuation identity

  datatype Evidence = Evidence(spec: Text, revision: Text, commit: Text, run: Text, prior: Text)

  datatype Identity = Identity(evidence: Evidence, digest: Digest)

  /** The names and the protocol label are constants of the program; any ASCII ones will do. */
  datatype Labels = Labels(prefix: Bytes, spec: Text, revision: Text, commit: Text, run: Text, prior: Text)

  ghost predicate GoodLabels(l: Labels) {
    forall name <- {l.spec, l.revision, l.commit, l.run, l.prior} :: Ascii(name) && |name| <= 256
  }

  function EvidenceFields(l: Labels, e: Evidence): seq<(Text, Text)> {
    [(l.spec, e.spec), (l.revision, e.revision), (l.commit, e.commit), (l.run, e.run), (l.prior, e.prior)]
  }

  /** The ones the program uses: `resolved_spec_sha256`, `project_revision`, `git_commit`, `run_id`,
      `prior_receipt_sha256`, behind `experiment-queue/ContinuationIdentity/v1` and a NUL. */
  const PROTOCOL: Bytes :=
    [101, 120, 112, 101, 114, 105, 109, 101, 110, 116, 45, 113, 117, 101, 117, 101, 47, 67, 111, 110, 116, 105, 110, 117, 97, 116, 105, 111, 110, 73, 100, 101, 110, 116, 105, 116, 121, 47, 118, 49, 0]
  const SPEC: Text := [114, 101, 115, 111, 108, 118, 101, 100, 95, 115, 112, 101, 99, 95, 115, 104, 97, 50, 53, 54]
  const REVISION: Text := [112, 114, 111, 106, 101, 99, 116, 95, 114, 101, 118, 105, 115, 105, 111, 110]
  const COMMIT: Text := [103, 105, 116, 95, 99, 111, 109, 109, 105, 116]
  const RUN: Text := [114, 117, 110, 95, 105, 100]
  const PRIOR: Text := [112, 114, 105, 111, 114, 95, 114, 101, 99, 101, 105, 112, 116, 95, 115, 104, 97, 50, 53, 54]

  function ProgramLabels(): Labels {
    Labels(PROTOCOL, SPEC, REVISION, COMMIT, RUN, PRIOR)
  }

  lemma LabelsAreGood()
    ensures GoodLabels(ProgramLabels())
  {
    assert Ascii(SPEC);
    assert Ascii(REVISION);
    assert Ascii(COMMIT);
    assert Ascii(RUN);
    assert Ascii(PRIOR);
  }

  /** One named field as it enters the digest. */
  function Framed(name: Text, value: Text): Bytes {
    Frame(Encoded((name, value)))
  }

  /** What is hashed, byte for byte: the protocol name, a NUL, and the five fields in this order. */
  lemma DigestSpells(hash: Hash, l: Labels, e: Evidence)
    ensures DigestOf(hash, l, e) ==
      hash(l.prefix + (Framed(l.spec, e.spec) + Framed(l.revision, e.revision) + Framed(l.commit, e.commit)
                       + Framed(l.run, e.run) + Framed(l.prior, e.prior)))
  {
    var f := EvidenceFields(l, e);
    assert EncodedAll(f) == [Encoded(f[0]), Encoded(f[1]), Encoded(f[2]), Encoded(f[3]), Encoded(f[4])];
    BodyOfFive(Encoded(f[0]), Encoded(f[1]), Encoded(f[2]), Encoded(f[3]), Encoded(f[4]));
  }

  lemma BodyOfFive(a: Field, b: Field, c: Field, d: Field, e: Field)
    ensures Body([a, b, c, d, e]) == Frame(a) + Frame(b) + Frame(c) + Frame(d) + Frame(e)
  {
    BodySnoc([], a);
    BodySnoc([a], b);
    BodySnoc([a, b], c);
    BodySnoc([a, b, c], d);
    BodySnoc([a, b, c, d], e);
    assert [] + [a] == [a] && [a] + [b] == [a, b] && [a, b] + [c] == [a, b, c] && [a, b, c] + [d] == [a, b, c, d];
    assert [a, b, c, d] + [e] == [a, b, c, d, e];
  }

  lemma {:induction false} BodySnoc(f: seq<Field>, x: Field)
    ensures Body(f + [x]) == Body(f) + Frame(x)
  {
    if f == [] {
      assert [x][1..] == [] && [] + [x] == [x];
    } else {
      BodySnoc(f[1..], x);
      assert (f + [x])[1..] == f[1..] + [x];
    }
  }

  /** The text rules bound every field; `syntax` stands for the patterns they match as well. */
  type Syntax = (nat, Text) -> bool

  ghost predicate ValidEvidence(syntax: Syntax, e: Evidence) {
    var values := [e.spec, e.revision, e.commit, e.run, e.prior];
    forall i | 0 <= i < 5 :: Encodable(values[i]) && |values[i]| <= 256 && syntax(i, values[i])
  }

  function DigestOf(hash: Hash, l: Labels, e: Evidence): Digest {
    hash(l.prefix + Body(EncodedAll(EvidenceFields(l, e))))
  }

  ghost predicate Injective(hash: Hash) {
    forall x, y :: hash(x) == hash(y) ==> x == y
  }

  lemma BoundedIsFramable(name: Text, value: Text)
    requires |name| <= 256 && |value| <= 256
    ensures Framable(Encoded((name, value)))
  {
    EncodedLength(name);
    EncodedLength(value);
    assert Power(4) == 0x1_0000_0000;
    assert Power(8) == Power(4) * 0x1_0000_0000;
  }

  lemma EvidenceIsAccepted(l: Labels, syntax: Syntax, e: Evidence)
    requires GoodLabels(l) && ValidEvidence(syntax, e)
    ensures forall f <- EvidenceFields(l, e) :: Accepted(f)
  {
    var names, values := [l.spec, l.revision, l.commit, l.run, l.prior], [e.spec, e.revision, e.commit, e.run, e.prior];
    forall i | 0 <= i < 5 ensures Accepted(EvidenceFields(l, e)[i]) {
      assert EvidenceFields(l, e)[i] == (names[i], values[i]);
      BoundedIsFramable(names[i], values[i]);
    }
  }

  /** Under an injective hash two identities carry the same digest exactly when all five fields agree: the
      field-by-field comparison and the digest comparison are the same check. */
  lemma DigestMatchesIffEvidenceMatches(hash: Hash, l: Labels, syntax: Syntax, a: Evidence, b: Evidence)
    requires Injective(hash) && GoodLabels(l) && ValidEvidence(syntax, a) && ValidEvidence(syntax, b)
    ensures DigestOf(hash, l, a) == DigestOf(hash, l, b) <==> a == b
  {
    if DigestOf(hash, l, a) == DigestOf(hash, l, b) {
      EvidenceIsAccepted(l, syntax, a);
      EvidenceIsAccepted(l, syntax, b);
      TranscriptIsInjective(l.prefix, EvidenceFields(l, a), EvidenceFields(l, b));
      FieldsAreInjective(l, a, b);
    }
  }

  lemma FieldsAreInjective(l: Labels, a: Evidence, b: Evidence)
    requires EvidenceFields(l, a) == EvidenceFields(l, b)
    ensures a == b
  {
    var f, g := EvidenceFields(l, a), EvidenceFields(l, b);
    assert f[0] == g[0] && f[1] == g[1] && f[2] == g[2] && f[3] == g[3] && f[4] == g[4];
  }

  /** `validate_continuation_identity`: the admitted execution is recognised exactly when every field is the
      recorded one.  An identity that exists was checked against its own digest, so the final comparison of
      digests cannot fail once the fields agree. */
  method ValidateContinuationIdentity(hash: Hash, l: Labels, syntax: Syntax, identity: Identity, admitted: Evidence)
    returns (ok: bool)
    requires identity.digest == DigestOf(hash, l, identity.evidence)
    ensures ok <==> identity.evidence == admitted
    ensures Injective(hash) && GoodLabels(l) && ValidEvidence(syntax, identity.evidence) && ValidEvidence(syntax, admitted) ==>
              (ok <==> identity.digest == DigestOf(hash, l, admitted))
  {
    var actual, expected := EvidenceFields(l, identity.evidence), EvidenceFields(l, admitted);
    ok := true;
    for i := 0 to 5
      invariant ok && forall k | 0 <= k < i :: actual[k] == expected[k]
    {
      if actual[i].1 != expected[i].1 {
        ok := false;
        break;
      }
    }
    if ok {
      assert actual == expected;
      FieldsAreInjective(l, identity.evidence, admitted);
      ok := identity.digest == DigestOf(hash, l, admitted);
    }
    if Injective(hash) && GoodLabels(l) && ValidEvidence(syntax, identity.evidence) && ValidEvidence(syntax, admitted) {
      DigestMatchesIffEvidenceMatches(hash, l, syntax, identity.evidence, admitted);
    }
  }
}
