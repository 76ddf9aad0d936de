/** SQLite rows as tagged JSON: exact 64-bit integers, hexadecimal floats, text and blobs. */
module SqlRows {
  import opened FileSystem
  import U = Utf8
  import B = Base64
  import C = Canonical

  type Text = U.Text

  /** A REAL is its IEEE bits; only finite ones can be carried over. */
  datatype Sql = SqlNull | Integer(i: int) | Real(bits: nat, finite: bool) | SqlText(t: Text) | SqlBlob(b: Bytes)

  type Row = map<Text, Sql>

  /** `float.hex`, `float.fromhex` and `int`.  The readers may take more spellings than the writers use, and the
      float reader tells whether what it read is finite. */
  datatype Numerals = Numerals(hex: nat -> Text, float: Text -> Option<(nat, bool)>, decimal: Text -> Option<int>)

  ghost predicate Lawful(h: Numerals) {
    && (forall x: nat :: h.float(h.hex(x)) == Some((x, true)) && U.Encodable(h.hex(x)))
    && (forall i: int :: h.decimal(PrintInt(i)) == Some(i))
  }

  const NULL: Text := [110, 117, 108, 108]
  const INTEGER: Text := [105, 110, 116, 101, 103, 101, 114]
  const REAL: Text := [114, 101, 97, 108]
  const TEXT: Text := [116, 101, 120, 116]
  const BLOB: Text := [98, 108, 111, 98]
  const MINUS: U.CodePoint := 45

  // ---------------------------------------------------------------- decimal integers

  function Digits(n: nat): Text {
    if n < 10 then [48 + n] else Digits(n / 10) + [48 + n % 10]
  }

  predicate AllDigits(t: Text) {
    t != [] && forall i | 0 <= i < |t| :: 48 <= t[i] < 58
  }

  function Number(t: Text): nat
    requires forall i | 0 <= i < |t| :: 48 <= t[i] < 58
  {
    if t == [] then 0 else 10 * Number(t[..|t| - 1]) + (t[|t| - 1] - 48)
  }

  function PrintInt(i: int): Text {
    if i < 0 then [MINUS] + Digits(-i) else Digits(i)
  }

  function ParseInt(t: Text): Option<int> {
    if AllDigits(t) then Some(Number(t))
    else if t != [] && t[0] == MINUS && AllDigits(t[1..]) then
      var n: int := Number(t[1..]);
      Some(-n)
    else None
  }

  lemma {:induction false} DigitsReadBack(n: nat)
    ensures AllDigits(Digits(n)) && Number(Digits(n)) == n
  {
    if n >= 10 {
      DigitsReadBack(n / 10);
      assert Digits(n)[..|Digits(n)| - 1] == Digits(n / 10);
    } else {
      assert Digits(n)[..0] == [];
    }
  }

  lemma IntReadsBack(i: int)
    ensures ParseInt(PrintInt(i)) == Some(i) && U.Encodable(PrintInt(i))
  {
    if i < 0 {
      DigitsReadBack(-i);
      assert PrintInt(i)[1..] == Digits(-i);
      assert PrintInt(i)[0] == MINUS;
    } else {
      DigitsReadBack(i);
    }
  }

  /** The strict decimal reader obeys the law the decoder relies on. */
  lemma StrictReaderIsLawful(h: Numerals)
    requires forall x: nat :: h.float(h.hex(x)) == Some((x, true)) && U.Encodable(h.hex(x))
    ensures Lawful(h.(decimal := t => ParseInt(t)))
  {
    forall i: int ensures ParseInt(PrintInt(i)) == Some(i) {
      IntReadsBack(i);
    }
  }

  // ---------------------------------------------------------------- tagged values

  /** `_sqlite_value_document`. */
  function Tagged(h: Numerals, v: Sql): Option<C.Value> {
    match v
    case SqlNull => Some(C.Arr([C.Str(NULL)]))
    case Integer(i) => Some(C.Arr([C.Str(INTEGER), C.Str(PrintInt(i))]))
    case Real(bits, finite) => if finite then Some(C.Arr([C.Str(REAL), C.Str(h.hex(bits))])) else None
    case SqlText(t) => Some(C.Arr([C.Str(TEXT), C.Str(t)]))
    case SqlBlob(b) => Some(C.Arr([C.Str(BLOB), C.Str(B.Encode(b))]))
  }

  function Untagged(h: Numerals, j: C.Value): Option<Sql> {
    if !j.Arr? || j.items == [] || !j.items[0].Str? then None
    else if |j.items| == 1 then if j.items[0].t == NULL then Some(SqlNull) else None
    else if |j.items| == 2 && j.items[1].Str? then UntaggedPair(h, j.items[0].t, j.items[1].t)
    else None
  }

  function UntaggedPair(h: Numerals, tag: Text, payload: Text): Option<Sql> {
    if tag == INTEGER then
      var i := h.decimal(payload);
      if i.Some? then Some(Integer(i.value)) else None
    else if tag == REAL then
      var x := h.float(payload);
      if x.Some? then Some(Real(x.value.0, x.value.1)) else None
    else if tag == TEXT then Some(SqlText(payload))
    else if tag == BLOB then
      var b := B.Decode(payload);
      if b.Some? then Some(SqlBlob(b.value)) else None
    else None
  }

  /** Nothing but the five shapes is taken: a lone `null`, or one of the four other tags with one text behind it. */
  lemma TagShapes(h: Numerals, j: C.Value)
    requires Untagged(h, j).Some?
    ensures j.Arr? && j.items != [] && j.items[0].Str?
    ensures if |j.items| == 1 then j.items[0].t == NULL && Untagged(h, j).value == SqlNull
            else |j.items| == 2 && j.items[1].Str? && (j.items[0].t == INTEGER || j.items[0].t == REAL || j.items[0].t == TEXT || j.items[0].t == BLOB)
  {}

  predicate Carried(v: Sql) {
    match v
    case Real(_, finite) => finite
    case SqlText(t) => U.Encodable(t)
    case _ => true
  }

  lemma {:induction false} Base64IsAscii(b: Bytes)
    ensures U.Encodable(B.Encode(b))
    decreases |b|
  {
    if |b| >= 3 {
      Base64IsAscii(b[3..]);
    }
  }

  lemma TagsDiffer()
    ensures INTEGER != REAL && INTEGER != TEXT && INTEGER != BLOB && REAL != TEXT && REAL != BLOB && TEXT != BLOB
  {
    assert INTEGER[0] == 105 && REAL[0] == 114 && TEXT[0] == 116 && BLOB[0] == 98;
  }

  lemma PairIsNormal(tag: Text, payload: Text)
    requires U.Encodable(tag) && U.Encodable(payload)
    ensures var j := C.Arr([C.Str(tag), C.Str(payload)]); C.Norm(j) == j && C.Encodable(j, 2)
    ensures forall h :: Untagged(h, C.Arr([C.Str(tag), C.Str(payload)])) == UntaggedPair(h, tag, payload)
  {
    var j := C.Arr([C.Str(tag), C.Str(payload)]);
    assert C.Norm(j).items == j.items;
  }

  /** Tagging is exact, and the tagged value is its own normal form: nothing is narrowed on the way. */
  lemma TagReadsBack(h: Numerals, v: Sql)
    requires Lawful(h) && Carried(v)
    ensures Tagged(h, v).Some? && Untagged(h, Tagged(h, v).value) == Some(v)
    ensures C.Norm(Tagged(h, v).value) == Tagged(h, v).value && C.Encodable(Tagged(h, v).value, 2)
  {
    match v
    case SqlNull => assert C.Norm(Tagged(h, v).value).items == Tagged(h, v).value.items;
    case Integer(i) => IntegerReadsBack(h, i);
    case Real(bits, _) => RealReadsBack(h, bits);
    case SqlText(t) => TextReadsBack(h, t);
    case SqlBlob(b) => BlobReadsBack(h, b);
  }

  lemma IntegerReadsBack(h: Numerals, i: int)
    requires Lawful(h)
    ensures var j := C.Arr([C.Str(INTEGER), C.Str(PrintInt(i))]);
      Untagged(h, j) == Some(Integer(i)) && C.Norm(j) == j && C.Encodable(j, 2)
  {
    IntReadsBack(i);
    NumeralReadsBack(h, PrintInt(i), i);
  }

  lemma NumeralReadsBack(h: Numerals, payload: Text, i: int)
    requires h.decimal(payload) == Some(i) && U.Encodable(payload)
    ensures var j := C.Arr([C.Str(INTEGER), C.Str(payload)]);
      Untagged(h, j) == Some(Integer(i)) && C.Norm(j) == j && C.Encodable(j, 2)
  {
    PairIsNormal(INTEGER, payload);
  }

  lemma TextReadsBack(h: Numerals, t: Text)
    requires U.Encodable(t)
    ensures var j := C.Arr([C.Str(TEXT), C.Str(t)]);
      Untagged(h, j) == Some(SqlText(t)) && C.Norm(j) == j && C.Encodable(j, 2)
  {
    TagsDiffer();
    PairIsNormal(TEXT, t);
  }

  lemma RealReadsBack(h: Numerals, bits: nat)
    requires Lawful(h)
    ensures var j := C.Arr([C.Str(REAL), C.Str(h.hex(bits))]);
      Untagged(h, j) == Some(Real(bits, true)) && C.Norm(j) == j && C.Encodable(j, 2)
  {
    TagsDiffer();
    assert h.float(h.hex(bits)) == Some((bits, true));
    PairIsNormal(REAL, h.hex(bits));
  }

  lemma BlobReadsBack(h: Numerals, b: Bytes)
    ensures var j := C.Arr([C.Str(BLOB), C.Str(B.Encode(b))]);
      Untagged(h, j) == Some(SqlBlob(b)) && C.Norm(j) == j && C.Encodable(j, 2)
  {
    TagsDiffer();
    B.DecodeUndoesEncode(b);
    Base64IsAscii(b);
    PairIsNormal(BLOB, B.Encode(b));
  }

  // ---------------------------------------------------------------- whole tables

  predicate CarriedRow(r: Row) {
    forall k <- r :: U.Encodable(k) && Carried(r[k])
  }

  function RowDocument(h: Numerals, r: Row): C.Value
    requires CarriedRow(r)
  {
    C.Obj(map k | k in r :: if Tagged(h, r[k]).Some? then Tagged(h, r[k]).value else C.Null)
  }

  /** `sqlite_rows_evidence_bytes`, for rows it accepts. */
  function RowsDocument(h: Numerals, rows: seq<Row>): C.Value
    requires forall r <- rows :: CarriedRow(r)
  {
    C.Arr(seq(|rows|, i requires 0 <= i < |rows| => assert rows[i] in rows; RowDocument(h, rows[i])))
  }

  /** An object with a valid tag in every column. */
  predicate IsTaggedRow(h: Numerals, j: C.Value) {
    j.Obj? && forall k <- j.members :: Untagged(h, j.members[k]).Some?
  }

  /** The row has the columns of the object, each with the value of its own tag. */
  predicate Spells(h: Numerals, j: C.Value, r: Row) {
    j.Obj? && r.Keys == j.members.Keys && forall k <- r :: Untagged(h, j.members[k]) == Some(r[k])
  }

  /** An object spells at most one row. */
  lemma SpelledOnce(h: Numerals, j: C.Value, r: Row, r': Row)
    requires Spells(h, j, r) && Spells(h, j, r')
    ensures r == r'
  {
    forall k | k in r ensures k in r' && r'[k] == r[k] {
      assert k in j.members && k in r';
    }
    assert r.Keys == r'.Keys;
  }

  lemma RowReadsBack(h: Numerals, r: Row)
    requires Lawful(h) && CarriedRow(r)
    ensures IsTaggedRow(h, RowDocument(h, r)) && Spells(h, RowDocument(h, r), r)
    ensures C.Norm(RowDocument(h, r)) == RowDocument(h, r) && C.Encodable(RowDocument(h, r), 1)
  {
    var d := RowDocument(h, r);
    forall k | k in r
      ensures Untagged(h, d.members[k]) == Some(r[k]) && C.Norm(d.members[k]) == d.members[k] && C.Encodable(d.members[k], 2)
    {
      TagReadsBack(h, r[k]);
    }
    assert C.Norm(d).members == d.members;
  }

  /** `_decode_sqlite_rows`. */
  method DecodeRows(h: Numerals, j: C.Value) returns (r: Option<seq<Row>>)
    ensures r.Some? <==> j.Arr? && forall i | 0 <= i < |j.items| :: IsTaggedRow(h, j.items[i])
    ensures r.Some? ==> |r.value| == |j.items| && forall i | 0 <= i < |j.items| :: Spells(h, j.items[i], r.value[i])
  {
    if !j.Arr? {
      return None;
    }
    var rows: seq<Row> := [];
    for i := 0 to |j.items|
      invariant |rows| == i && forall k | 0 <= k < i :: IsTaggedRow(h, j.items[k]) && Spells(h, j.items[k], rows[k])
    {
      var row := j.items[i];
      if !IsTaggedRow(h, row) {
        return None;
      }
      rows := rows + [map k | k in row.members :: Untagged(h, row.members[k]).value];
    }
    r := Some(rows);
  }

  lemma RowsEncode(h: Numerals, rows: seq<Row>)
    requires Lawful(h) && forall r <- rows :: CarriedRow(r)
    ensures C.Encode(RowsDocument(h, rows)) == Some(C.Rendered(RowsDocument(h, rows)))
    ensures forall i | 0 <= i < |rows| :: IsTaggedRow(h, RowsDocument(h, rows).items[i]) && Spells(h, RowsDocument(h, rows).items[i], rows[i])
  {
    var d := RowsDocument(h, rows);
    forall i | 0 <= i < |rows|
      ensures C.Norm(d.items[i]) == d.items[i] && C.Encodable(d.items[i], 1)
      ensures IsTaggedRow(h, d.items[i]) && Spells(h, d.items[i], rows[i])
    {
      assert rows[i] in rows;
      RowReadsBack(h, rows[i]);
    }
    assert C.Norm(d).items == d.items;
  }

  /** Freezing the rows of a table as evidence bytes and thawing them again gives the same rows: every
      64-bit integer, every float, every text and every blob. */
  method FreezeAndThaw(h: Numerals, other: C.Loader, rows: seq<Row>) returns (r: Option<seq<Row>>)
    requires Lawful(h) && forall x <- rows :: CarriedRow(x)
    ensures r == Some(rows)
  {
    RowsEncode(h, rows);
    var frozen := C.Encode(RowsDocument(h, rows)).value;
    r := DecodeRows(h, C.Loads(other, frozen).value);
    forall i | 0 <= i < |rows| ensures r.value[i] == rows[i] {
      SpelledOnce(h, RowsDocument(h, rows).items[i], r.value[i], rows[i]);
    }
    assert r.value == rows;
  }
}
