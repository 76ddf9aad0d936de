/**
 The cooperative-yield request as a value, as a wire document, and as the repository's row: the columns beside
 the exact bytes, and how the value is rebuilt from them.
 */
module YieldRequest {
  import opened FileSystem
  import opened Utf8
  import T = Transcript
  import R = YieldReceipt

  datatype RequestKind = ManualPreemption | GpuReservation

  datatype Request = Request(
    id: Text, item: int, segment: int, kind: RequestKind, requestedAt: Text, requestedBy: Text, note: Text, continuation: T.Identity)

  const MANUAL: Text := [109, 97, 110, 117, 97, 108, 95, 112, 114, 101, 101, 109, 112, 116, 105, 111, 110]
  const RESERVATION: Text := [103, 112, 117, 95, 114, 101, 115, 101, 114, 118, 97, 116, 105, 111, 110]

  function KindText(k: RequestKind): Text {
    if k.ManualPreemption? then MANUAL else RESERVATION
  }

  function KindOf(t: Text): Option<RequestKind> {
    if t == MANUAL then Some(ManualPreemption) else if t == RESERVATION then Some(GpuReservation) else None
  }

  lemma KindReadsBack(k: RequestKind)
    ensures KindOf(KindText(k)) == Some(k)
  {
    assert |MANUAL| != |RESERVATION|;
  }

  predicate Valid(r: R.Rules, q: Request) {
    && r.text(R.RequestId, q.id) && R.SafeInt(q.item, 1) && R.SafeInt(q.segment, 1)
    && r.text(R.RequestedAt, q.requestedAt) && r.text(R.RequestedBy, q.requestedBy) && r.text(R.NoteName, q.note)
    && R.ValidIdentity(r, q.continuation)
  }

  // ---------------------------------------------------------------- the wire document

  const NAMES: set<R.Name> :=
    {R.ApiVersion, R.Kind, R.RequestId, R.QueueItemId, R.Segment, R.RequestKindName, R.RequestedAt, R.RequestedBy, R.NoteName,
     R.Continuation}

  /** `CooperativeYieldRequest.to_document`. */
  function Print(r: R.Rules, q: Request): R.Doc {
    R.Dict(map[R.ApiVersion := R.Str(r.api), R.Kind := R.Str(r.kind), R.RequestId := R.Str(q.id), R.QueueItemId := R.Int(q.item),
               R.Segment := R.Int(q.segment), R.RequestKindName := R.Str(KindText(q.kind)), R.RequestedAt := R.Str(q.requestedAt),
               R.RequestedBy := R.Str(q.requestedBy), R.NoteName := R.Str(q.note), R.Continuation := R.PrintIdentity(q.continuation)])
  }

  predicate Shaped(r: R.Rules, f: map<R.Name, R.Doc>) {
    && f.Keys == NAMES && f[R.ApiVersion] == R.Str(r.api) && f[R.Kind] == R.Str(r.kind)
    && f[R.RequestId].Str? && f[R.QueueItemId].Int? && f[R.Segment].Int? && f[R.RequestKindName].Str?
    && f[R.RequestedAt].Str? && f[R.RequestedBy].Str? && f[R.NoteName].Str?
  }

  /** `CooperativeYieldRequest.from_document`. */
  function Parse(r: R.Rules, d: R.Doc): Option<Request> {
    if !d.Dict? || !Shaped(r, d.fields) then None
    else
      var f := d.fields;
      var kind, identity := KindOf(f[R.RequestKindName].t), R.ParseIdentity(r, f[R.Continuation]);
      if kind.None? || identity.None? then None
      else
        var q := Request(f[R.RequestId].t, f[R.QueueItemId].i, f[R.Segment].i, kind.value, f[R.RequestedAt].t, f[R.RequestedBy].t,
                         f[R.NoteName].t, identity.value);
        if Valid(r, q) then Some(q) else None
  }

  lemma PrintIsShaped(r: R.Rules, q: Request)
    ensures Shaped(r, Print(r, q).fields)
  {
    assert Print(r, q).fields.Keys == NAMES;
  }

  /** A valid request parses back from its own document. */
  lemma RequestReadsBack(r: R.Rules, q: Request)
    requires Valid(r, q)
    ensures Parse(r, Print(r, q)) == Some(q)
  {
    PrintIsShaped(r, q);
    KindReadsBack(q.kind);
    R.IdentityReadsBack(r, q.continuation);
  }

  /** ... and every accepted document is what its request prints. */
  lemma RequestPrintsBack(r: R.Rules, d: R.Doc, q: Request)
    requires Parse(r, d) == Some(q)
    ensures Valid(r, q) && Print(r, q) == d
  {
    R.IdentityPrintsBack(r, d.fields[R.Continuation]);
    PrintIsShaped(r, q);
    ParsedFields(r, d, q);
    assert Print(r, q).fields == d.fields;
  }

  lemma ParsedFields(r: R.Rules, d: R.Doc, q: Request)
    requires Parse(r, d) == Some(q) && R.PrintIdentity(q.continuation) == d.fields[R.Continuation]
    ensures forall n <- NAMES :: n in Print(r, q).fields && Print(r, q).fields[n] == d.fields[n]
  {}

  /** What a reader can rely on about an accepted request. */
  lemma AcceptedIsChecked(r: R.Rules, d: R.Doc, q: Request)
    requires Parse(r, d) == Some(q)
    ensures r.text(R.RequestId, q.id) && r.text(R.RequestedAt, q.requestedAt) && r.text(R.RequestedBy, q.requestedBy) && r.text(R.NoteName, q.note)
    ensures 1 <= q.item <= 0x1F_FFFF_FFFF_FFFF && 1 <= q.segment <= 0x1F_FFFF_FFFF_FFFF
    ensures q.continuation.digest == T.DigestOf(r.hash, r.labels, q.continuation.evidence)
  {}

  // ---------------------------------------------------------------- bytes and rows

  /** The JSON writer and the strict JSON reader. */
  datatype Codec = Codec(write: R.Doc -> Bytes, read: Bytes -> Option<R.Doc>)

  ghost predicate Lawful(c: Codec) {
    forall d :: c.read(c.write(d)) == Some(d)
  }

  /** What the repository needs: the rules, the codec, the hash. */
  datatype Repo = Repo(rules: R.Rules, codec: Codec)

  function Wire(p: Repo, q: Request): Bytes {
    p.codec.write(Print(p.rules, q))
  }

  /** The searchable columns of a request. */
  datatype Columns = Columns(
    id: Text, item: int, segment: int, api: Text, protocol: Text, kind: Text, requestedAt: Text, requestedBy: Text, note: Text,
    spec: Text, revision: Text, commit: Text, run: Text, prior: Text, identity: Text)

  function ColumnsOf(p: Repo, q: Request): Columns {
    var e := q.continuation.evidence;
    Columns(q.id, q.item, q.segment, p.rules.api, p.rules.kind, KindText(q.kind), q.requestedAt, q.requestedBy, q.note,
            e.spec, e.revision, e.commit, e.run, e.prior, q.continuation.digest)
  }

  datatype Row = Row(columns: Columns, source: Bytes, sha256: Text, project: nat, revision: nat)

  datatype Record = Record(request: Request, source: Bytes, sha256: Text, project: nat, revision: nat)

  /** `_yield_request_from_row`: the value is parsed from the exact bytes and must agree with every column. */
  function FromRow(p: Repo, row: Row): Option<Record> {
    if p.rules.hash(row.source) != row.sha256 then None
    else
      var doc := p.codec.read(row.source);
      if doc.None? then None
      else
        var q := Parse(p.rules, doc.value);
        if q.None? || ColumnsOf(p, q.value) != row.columns then None
        else Some(Record(q.value, row.source, row.sha256, row.project, row.revision))
  }

  /** The row that is inserted for a request and its bytes. */
  function ToRow(p: Repo, q: Request, source: Bytes, project: nat, revision: nat): Row {
    Row(ColumnsOf(p, q), source, p.rules.hash(source), project, revision)
  }

  /** The bytes spell the valid request. */
  predicate Spells(p: Repo, q: Request, source: Bytes) {
    Valid(p.rules, q) && p.codec.read(source) == Some(Print(p.rules, q))
  }

  /** The check of supplied bytes against the request object: they must parse to it. */
  method CheckWire(p: Repo, q: Request, source: Bytes) returns (ok: bool)
    ensures ok <==> Spells(p, q, source)
  {
    var doc := p.codec.read(source);
    if doc.None? {
      return false;
    }
    ok := Parse(p.rules, doc.value) == Some(q);
    if ok {
      RequestPrintsBack(p.rules, doc.value, q);
    } else if Valid(p.rules, q) {
      RequestReadsBack(p.rules, q);
    }
  }

  lemma WireSpells(p: Repo, q: Request)
    requires Lawful(p.codec) && Valid(p.rules, q)
    ensures Spells(p, q, Wire(p, q))
  {}

  /** The row of a valid request gives the request back. */
  lemma RowReadsBack(p: Repo, q: Request, source: Bytes, project: nat, revision: nat)
    requires Spells(p, q, source)
    ensures FromRow(p, ToRow(p, q, source, project, revision)) == Some(Record(q, source, p.rules.hash(source), project, revision))
  {
    RequestReadsBack(p.rules, q);
  }

  type Loader = Row -> Option<Record>

  /** A way of reading rows that gives back what was inserted. */
  ghost predicate Restores(p: Repo, load: Loader) {
    forall q, source, project, revision :: Spells(p, q, source) ==>
      load(ToRow(p, q, source, project, revision)) == Some(Record(q, source, p.rules.hash(source), project, revision))
  }

  /** Parsing is one. */
  lemma ParsingRestores(p: Repo)
    ensures Restores(p, row => FromRow(p, row))
  {
    forall q, source, project, revision | Spells(p, q, source)
      ensures FromRow(p, ToRow(p, q, source, project, revision)) == Some(Record(q, source, p.rules.hash(source), project, revision))
    {
      RowReadsBack(p, q, source, project, revision);
    }
  }

  /** A row that is accepted tells one story: it is the row that would be inserted for the request it gives. */
  lemma RowTellsOneStory(p: Repo, row: Row, x: Record)
    requires Lawful(p.codec) && FromRow(p, row) == Some(x)
    ensures Valid(p.rules, x.request) && row.columns == ColumnsOf(p, x.request) && x.sha256 == p.rules.hash(x.source)
    ensures p.codec.read(x.source) == Some(Print(p.rules, x.request))
    ensures row == ToRow(p, x.request, x.source, x.project, x.revision)
  {
    RequestPrintsBack(p.rules, p.codec.read(row.source).value, x.request);
  }
}
