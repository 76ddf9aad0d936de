/**
 The cooperative-yield receipt as a value and as a wire document: printing, strict parsing, and how
 far each undoes the other.
 */
module YieldReceipt {
  import opened FileSystem
  import opened Utf8
  import opened Transcript
  import B = Base64

  // ---------------------------------------------------------------- wire documents

  datatype Name =
    | ApiVersion | Kind | RequestId | QueueItemId | Segment | Status | WrittenAt
    | ProgressName | Continuation | CheckpointArtifacts | ResumeContext | Error
    | Unit | Completed | Total
    | ArtifactName | Path | ByteCount | Sha256 | MediaType
    | Encoding | Data
    | RequestKindName | RequestedAt | RequestedBy | NoteName
    | ResolvedSpec | ProjectRevision | GitCommit | RunId | PriorReceipt | IdentitySha256
    | Unknown(text: string)

  datatype Doc =
    | Null
    | Int(i: int)
    | Str(t: Text)
    | List(items: seq<Doc>)
    | Dict(fields: map<Name, Doc>)
    | OtherDoc(tag: nat)

  const READY: Text := [114, 101, 97, 100, 121]
  const FAILED: Text := [102, 97, 105, 108, 101, 100]
  const BASE64: Text := [98, 97, 115, 101, 54, 52]
  const MAX_SAFE: int := 9007199254740991

  /** What the parser takes from elsewhere: the text rules of each field, the hash, the labels of the
      transcript and the protocol identity. */
  datatype Rules = Rules(text: (Name, Text) -> bool, hash: Hash, labels: Labels, api: Text, kind: Text)

  predicate SafeInt(i: int, minimum: int) {
    minimum <= i <= MAX_SAFE
  }

  /** Exactly these fields, all of them texts or integers where said so. */
  predicate HasFields(d: Doc, names: set<Name>, texts: set<Name>, ints: set<Name>) {
    && d.Dict? && d.fields.Keys == names
    && (forall n <- texts :: n in d.fields && d.fields[n].Str?)
    && (forall n <- ints :: n in d.fields && d.fields[n].Int?)
  }

  // ---------------------------------------------------------------- progress

  datatype Progress = Progress(unit: Text, completed: int, total: Option<int>)

  predicate ValidProgress(r: Rules, p: Progress) {
    && r.text(Unit, p.unit) && SafeInt(p.completed, 0)
    && (p.total.Some? ==> SafeInt(p.total.value, 0) && p.total.value >= p.completed)
  }

  function PrintProgress(p: Progress): Doc {
    var base := map[Unit := Str(p.unit), Completed := Int(p.completed)];
    Dict(if p.total.Some? then base[Total := Int(p.total.value)] else base)
  }

  function ParseProgress(r: Rules, d: Doc): Option<Progress> {
    if !d.Dict? || !HasFields(d, {Unit, Completed} + (if Total in d.fields then {Total} else {}), {Unit}, {Completed}) then None
    else if Total in d.fields && !d.fields[Total].Int? && !d.fields[Total].Null? then None
    else
      var total := if Total in d.fields && d.fields[Total].Int? then Some(d.fields[Total].i) else None;
      var p := Progress(d.fields[Unit].t, d.fields[Completed].i, total);
      if ValidProgress(r, p) then Some(p) else None
  }

  /** The one document the parser accepts and the printer does not write. */
  predicate NullTotal(d: Doc) {
    d.Dict? && Total in d.fields && d.fields[Total].Null?
  }

  lemma ProgressReadsBack(r: Rules, p: Progress)
    requires ValidProgress(r, p)
    ensures ParseProgress(r, PrintProgress(p)) == Some(p)
  {}

  lemma ProgressPrintsBack(r: Rules, d: Doc)
    requires ParseProgress(r, d).Some?
    ensures ValidProgress(r, ParseProgress(r, d).value)
    ensures PrintProgress(ParseProgress(r, d).value) == d <==> !NullTotal(d)
  {
    var p := ParseProgress(r, d).value;
    if !NullTotal(d) {
      assert PrintProgress(p).fields == d.fields;
    }
  }

  // ---------------------------------------------------------------- checkpoint artifacts

  datatype Artifact = Artifact(name: Text, path: Text, bytes: int, sha256: Text, mediaType: Text)

  predicate ValidArtifact(r: Rules, a: Artifact) {
    && r.text(ArtifactName, a.name) && r.text(Path, a.path) && SafeInt(a.bytes, 0)
    && r.text(Sha256, a.sha256) && r.text(MediaType, a.mediaType)
  }

  function PrintArtifact(a: Artifact): Doc {
    Dict(map[ArtifactName := Str(a.name), Path := Str(a.path), ByteCount := Int(a.bytes),
             Sha256 := Str(a.sha256), MediaType := Str(a.mediaType)])
  }

  function ParseArtifact(r: Rules, d: Doc): Option<Artifact> {
    if !HasFields(d, {ArtifactName, Path, ByteCount, Sha256, MediaType}, {ArtifactName, Path, Sha256, MediaType}, {ByteCount}) then None
    else
      var a := Artifact(d.fields[ArtifactName].t, d.fields[Path].t, d.fields[ByteCount].i, d.fields[Sha256].t, d.fields[MediaType].t);
      if ValidArtifact(r, a) then Some(a) else None
  }

  lemma ArtifactReadsBack(r: Rules, a: Artifact)
    requires ValidArtifact(r, a)
    ensures ParseArtifact(r, PrintArtifact(a)) == Some(a)
  {}

  lemma ArtifactPrintsBack(r: Rules, d: Doc)
    requires ParseArtifact(r, d).Some?
    ensures ValidArtifact(r, ParseArtifact(r, d).value) && PrintArtifact(ParseArtifact(r, d).value) == d
  {
    assert PrintArtifact(ParseArtifact(r, d).value).fields == d.fields;
  }

  function PrintArtifacts(s: seq<Artifact>): seq<Doc> {
    seq(|s|, i requires 0 <= i < |s| => PrintArtifact(s[i]))
  }

  function ParseArtifacts(r: Rules, items: seq<Doc>): Option<seq<Artifact>> {
    if items == [] then Some([])
    else
      var first, rest := ParseArtifact(r, items[0]), ParseArtifacts(r, items[1..]);
      if first.None? || rest.None? then None else Some([first.value] + rest.value)
  }

  lemma {:induction false} ArtifactsReadBack(r: Rules, s: seq<Artifact>)
    requires forall a <- s :: ValidArtifact(r, a)
    ensures ParseArtifacts(r, PrintArtifacts(s)) == Some(s)
  {
    if s != [] {
      ArtifactReadsBack(r, s[0]);
      ArtifactsReadBack(r, s[1..]);
      assert PrintArtifacts(s)[1..] == PrintArtifacts(s[1..]);
      assert s == [s[0]] + s[1..];
    } else {
      assert PrintArtifacts(s) == [];
    }
  }

  lemma {:induction false} ArtifactsPrintBack(r: Rules, items: seq<Doc>)
    requires ParseArtifacts(r, items).Some?
    ensures (forall a <- ParseArtifacts(r, items).value :: ValidArtifact(r, a)) && PrintArtifacts(ParseArtifacts(r, items).value) == items
  {
    if items != [] {
      ArtifactPrintsBack(r, items[0]);
      ArtifactsPrintBack(r, items[1..]);
      assert items == [items[0]] + items[1..];
    }
  }

  // ---------------------------------------------------------------- the resume context

  datatype Context = Context(payload: Bytes, mediaType: Text, sha256: Text)

  predicate ValidContext(r: Rules, c: Context) {
    r.text(MediaType, c.mediaType) && r.text(Sha256, c.sha256) && c.sha256 == r.hash(c.payload)
  }

  /** `OpaqueResumeContext.to_document`: the payload travels as its canonical base64 spelling. */
  function PrintContext(c: Context): Doc {
    Dict(map[Encoding := Str(BASE64), MediaType := Str(c.mediaType), Data := Str(B.Encode(c.payload)),
             ByteCount := Int(|c.payload|), Sha256 := Str(c.sha256)])
  }

  function ParseContext(r: Rules, d: Doc): Option<Context> {
    if !HasFields(d, {Encoding, MediaType, Data, ByteCount, Sha256}, {Encoding, MediaType, Data, Sha256}, {ByteCount}) then None
    else if d.fields[Encoding].t != BASE64 || !B.AcceptsSpelling(B.Decode, d.fields[Data].t) then None
    else
      var payload := B.Decode(d.fields[Data].t).value;
      var c := Context(payload, d.fields[MediaType].t, d.fields[Sha256].t);
      if SafeInt(d.fields[ByteCount].i, 0) && |payload| == d.fields[ByteCount].i && ValidContext(r, c) then Some(c) else None
  }

  lemma ContextReadsBack(r: Rules, c: Context)
    requires ValidContext(r, c) && SafeInt(|c.payload|, 0)
    ensures ParseContext(r, PrintContext(c)) == Some(c)
  {
    B.DecodeUndoesEncode(c.payload);
  }

  lemma ContextPrintsBack(r: Rules, d: Doc)
    requires ParseContext(r, d).Some?
    ensures ValidContext(r, ParseContext(r, d).value) && SafeInt(|ParseContext(r, d).value.payload|, 0)
    ensures PrintContext(ParseContext(r, d).value) == d
  {
    assert PrintContext(ParseContext(r, d).value).fields == d.fields;
  }

  /** The envelope of a context with its data spelled in some other way. */
  function Respelled(c: Context, data: Text): Doc {
    Dict(map[Encoding := Str(BASE64), MediaType := Str(c.mediaType), Data := Str(data),
             ByteCount := Int(|c.payload|), Sha256 := Str(c.sha256)])
  }

  /** The envelope accepts the canonical spelling of the payload and no other text. */
  lemma EnvelopeAcceptsExactlyCanonical(r: Rules, c: Context, data: Text)
    requires ValidContext(r, c) && SafeInt(|c.payload|, 0)
    ensures ParseContext(r, Respelled(c, data)) == Some(c) <==> data == B.Encode(c.payload)
  {
    if data == B.Encode(c.payload) {
      ContextReadsBack(r, c);
    } else if ParseContext(r, Respelled(c, data)) == Some(c) {
      ContextPrintsBack(r, Respelled(c, data));
      assert false;
    }
  }

  // ---------------------------------------------------------------- the continuation identity

  predicate ValidIdentity(r: Rules, c: Identity) {
    && r.text(ResolvedSpec, c.evidence.spec) && r.text(ProjectRevision, c.evidence.revision) && r.text(GitCommit, c.evidence.commit)
    && r.text(RunId, c.evidence.run) && r.text(PriorReceipt, c.evidence.prior) && r.text(IdentitySha256, c.digest)
    && c.digest == DigestOf(r.hash, r.labels, c.evidence)
  }

  function PrintIdentity(c: Identity): Doc {
    Dict(map[ResolvedSpec := Str(c.evidence.spec), ProjectRevision := Str(c.evidence.revision), GitCommit := Str(c.evidence.commit),
             RunId := Str(c.evidence.run), PriorReceipt := Str(c.evidence.prior), IdentitySha256 := Str(c.digest)])
  }

  const IDENTITY_NAMES: set<Name> := {ResolvedSpec, ProjectRevision, GitCommit, RunId, PriorReceipt, IdentitySha256}

  function ParseIdentity(r: Rules, d: Doc): Option<Identity> {
    if !HasFields(d, IDENTITY_NAMES, IDENTITY_NAMES, {}) then None
    else
      var e := Evidence(d.fields[ResolvedSpec].t, d.fields[ProjectRevision].t, d.fields[GitCommit].t, d.fields[RunId].t, d.fields[PriorReceipt].t);
      var c := Identity(e, d.fields[IdentitySha256].t);
      if ValidIdentity(r, c) then Some(c) else None
  }

  lemma IdentityReadsBack(r: Rules, c: Identity)
    requires ValidIdentity(r, c)
    ensures ParseIdentity(r, PrintIdentity(c)) == Some(c)
  {}

  lemma IdentityPrintsBack(r: Rules, d: Doc)
    requires ParseIdentity(r, d).Some?
    ensures ValidIdentity(r, ParseIdentity(r, d).value) && PrintIdentity(ParseIdentity(r, d).value) == d
  {
    assert PrintIdentity(ParseIdentity(r, d).value).fields == d.fields;
  }

  // ---------------------------------------------------------------- the receipt

  /** What a ready receipt claims. */
  datatype Claim = Claim(continuation: Identity, artifacts: seq<Artifact>, context: Context)

  datatype Outcome = Ready(progress: Progress, claim: Claim) | Failed(partial: Option<Progress>, error: Text)

  datatype Receipt = Receipt(requestId: Text, item: int, segment: int, writtenAt: Text, outcome: Outcome)

  predicate ValidClaim(r: Rules, c: Claim) {
    && ValidIdentity(r, c.continuation) && ValidContext(r, c.context)
    && c.artifacts != [] && (forall a <- c.artifacts :: ValidArtifact(r, a))
    && (forall i, j | 0 <= i < j < |c.artifacts| :: c.artifacts[i].name != c.artifacts[j].name && c.artifacts[i].path != c.artifacts[j].path)
  }

  predicate Valid(r: Rules, x: Receipt) {
    && r.text(RequestId, x.requestId) && SafeInt(x.item, 1) && SafeInt(x.segment, 1) && r.text(WrittenAt, x.writtenAt)
    && match x.outcome
       case Ready(progress, claim) => ValidProgress(r, progress) && ValidClaim(r, claim)
       case Failed(partial, error) => (partial.Some? ==> ValidProgress(r, partial.value)) && r.text(Error, error)
  }

  const COMMON_NAMES: set<Name> := {ApiVersion, Kind, RequestId, QueueItemId, Segment, Status, WrittenAt}

  const READY_NAMES: set<Name> := {ProgressName, Continuation, CheckpointArtifacts, ResumeContext}

  function PrintCommon(r: Rules, x: Receipt): map<Name, Doc> {
    map[ApiVersion := Str(r.api), Kind := Str(r.kind), RequestId := Str(x.requestId), QueueItemId := Int(x.item),
        Segment := Int(x.segment), Status := Str(if x.outcome.Ready? then READY else FAILED), WrittenAt := Str(x.writtenAt)]
  }

  function PrintOutcome(o: Outcome): map<Name, Doc> {
    match o
    case Ready(progress, claim) =>
      map[ProgressName := PrintProgress(progress), Continuation := PrintIdentity(claim.continuation),
          CheckpointArtifacts := List(PrintArtifacts(claim.artifacts)), ResumeContext := PrintContext(claim.context)]
    case Failed(partial, error) =>
      if partial.Some? then map[ProgressName := PrintProgress(partial.value), Error := Str(error)] else map[Error := Str(error)]
  }

  /** `CooperativeYieldReceipt.to_document`. */
  function Print(r: Rules, x: Receipt): Doc {
    Dict(PrintCommon(r, x) + PrintOutcome(x.outcome))
  }

  function ParseReady(r: Rules, f: map<Name, Doc>): Option<Outcome> {
    if f.Keys != COMMON_NAMES + {ProgressName, Continuation, CheckpointArtifacts, ResumeContext} || !f[CheckpointArtifacts].List? then None
    else
      var p, i, a, c := ParseProgress(r, f[ProgressName]), ParseIdentity(r, f[Continuation]),
                        ParseArtifacts(r, f[CheckpointArtifacts].items), ParseContext(r, f[ResumeContext]);
      if p.None? || i.None? || a.None? || c.None? then None else Some(Ready(p.value, Claim(i.value, a.value, c.value)))
  }

  function ParseFailed(r: Rules, f: map<Name, Doc>): Option<Outcome> {
    if f.Keys != COMMON_NAMES + {Error} + (if ProgressName in f then {ProgressName} else {}) || !f[Error].Str? then None
    else if ProgressName !in f then Some(Failed(None, f[Error].t))
    else
      var p := ParseProgress(r, f[ProgressName]);
      if p.None? then None else Some(Failed(p, f[Error].t))
  }

  predicate CommonOk(r: Rules, f: map<Name, Doc>) {
    && COMMON_NAMES <= f.Keys
    && f[ApiVersion] == Str(r.api) && f[Kind] == Str(r.kind) && (f[Status] == Str(READY) || f[Status] == Str(FAILED))
    && f[RequestId].Str? && f[QueueItemId].Int? && f[Segment].Int? && f[WrittenAt].Str?
  }

  /** `CooperativeYieldReceipt.from_document`. */
  function Parse(r: Rules, d: Doc): Option<Receipt> {
    if !d.Dict? || !CommonOk(r, d.fields) then None
    else
      var f := d.fields;
      var o := if f[Status] == Str(READY) then ParseReady(r, f) else ParseFailed(r, f);
      if o.None? then None
      else
        var x := Receipt(f[RequestId].t, f[QueueItemId].i, f[Segment].i, f[WrittenAt].t, o.value);
        if Valid(r, x) then Some(x) else None
  }

  /** The receipt's payload is small enough to state its length as an interoperable integer. */
  predicate Sized(x: Receipt) {
    x.outcome.Ready? ==> SafeInt(|x.outcome.claim.context.payload|, 0)
  }

  /** Printing the outcome after the common fields hides none of it. */
  lemma PrintedOwnFields(r: Rules, x: Receipt)
    ensures Print(r, x).Dict? && Print(r, x).fields.Keys == COMMON_NAMES + PrintOutcome(x.outcome).Keys
    ensures forall n <- PrintOutcome(x.outcome) :: Print(r, x).fields[n] == PrintOutcome(x.outcome)[n]
  {
    assert PrintCommon(r, x).Keys == COMMON_NAMES;
  }

  lemma PrintedReadyFields(r: Rules, x: Receipt)
    requires x.outcome.Ready?
    ensures var f := Print(r, x).fields;
      && f.Keys == COMMON_NAMES + {ProgressName, Continuation, CheckpointArtifacts, ResumeContext}
      && f[ProgressName] == PrintProgress(x.outcome.progress) && f[Continuation] == PrintIdentity(x.outcome.claim.continuation)
      && f[CheckpointArtifacts] == List(PrintArtifacts(x.outcome.claim.artifacts))
      && f[ResumeContext] == PrintContext(x.outcome.claim.context)
  {
    PrintedOwnFields(r, x);
    ReadyFields(x.outcome);
  }

  lemma ReadyFields(o: Outcome)
    requires o.Ready?
    ensures var f := PrintOutcome(o);
      && f.Keys == {ProgressName, Continuation, CheckpointArtifacts, ResumeContext}
      && f[ProgressName] == PrintProgress(o.progress) && f[Continuation] == PrintIdentity(o.claim.continuation)
      && f[CheckpointArtifacts] == List(PrintArtifacts(o.claim.artifacts)) && f[ResumeContext] == PrintContext(o.claim.context)
  {}

  lemma ReadyReadsBack(r: Rules, x: Receipt)
    requires Valid(r, x) && x.outcome.Ready? && Sized(x)
    ensures ParseReady(r, Print(r, x).fields) == Some(x.outcome)
  {
    var claim := x.outcome.claim;
    PrintedReadyFields(r, x);
    ProgressReadsBack(r, x.outcome.progress);
    IdentityReadsBack(r, claim.continuation);
    ArtifactsReadBack(r, claim.artifacts);
    ContextReadsBack(r, claim.context);
  }

  lemma FailedReadsBack(r: Rules, x: Receipt)
    requires Valid(r, x) && x.outcome.Failed?
    ensures ParseFailed(r, Print(r, x).fields) == Some(x.outcome)
  {
    var f := Print(r, x).fields;
    assert f.Keys == COMMON_NAMES + {Error} + (if ProgressName in f then {ProgressName} else {});
    if x.outcome.partial.Some? {
      ProgressReadsBack(r, x.outcome.partial.value);
    }
  }

  lemma CommonReadsBack(r: Rules, x: Receipt)
    ensures var f := Print(r, x).fields;
      && CommonOk(r, f) && f[RequestId] == Str(x.requestId) && f[QueueItemId] == Int(x.item)
      && f[Segment] == Int(x.segment) && f[WrittenAt] == Str(x.writtenAt)
      && (f[Status] == Str(READY) <==> x.outcome.Ready?)
  {
    assert |READY| != |FAILED|;
  }

  lemma OversizedContextIsRefused(r: Rules, x: Receipt)
    requires Valid(r, x) && !Sized(x)
    ensures Parse(r, Print(r, x)).None?
  {
    CommonReadsBack(r, x);
    PrintedReadyFields(r, x);
    assert ParseContext(r, PrintContext(x.outcome.claim.context)).None?;
  }

  /** Every valid receipt, ready or failed, is read back from its own document unchanged - as long as the
      length of its payload can be written down at all. */
  lemma ReceiptReadsBack(r: Rules, x: Receipt)
    requires Valid(r, x)
    ensures Parse(r, Print(r, x)) == Some(x) <==> Sized(x)
  {
    CommonReadsBack(r, x);
    if !Sized(x) {
      OversizedContextIsRefused(r, x);
    } else if x.outcome.Ready? {
      ReadyReadsBack(r, x);
    } else {
      FailedReadsBack(r, x);
    }
  }

  lemma ReadyFieldsAgree(g: map<Name, Doc>, f: map<Name, Doc>)
    requires g.Keys == READY_NAMES && f.Keys == COMMON_NAMES + READY_NAMES
    requires g[Continuation] == f[Continuation] && g[CheckpointArtifacts] == f[CheckpointArtifacts] && g[ResumeContext] == f[ResumeContext]
    ensures (forall n <- g :: g[n] == f[n]) <==> g[ProgressName] == f[ProgressName]
  {}

  lemma ReadyPrintsBack(r: Rules, f: map<Name, Doc>)
    requires ParseReady(r, f).Some?
    ensures ParseReady(r, f).value.Ready?
    ensures var g := PrintOutcome(ParseReady(r, f).value);
      && g.Keys == READY_NAMES && f.Keys == COMMON_NAMES + READY_NAMES
      && g[Continuation] == f[Continuation] && g[CheckpointArtifacts] == f[CheckpointArtifacts] && g[ResumeContext] == f[ResumeContext]
      && (g[ProgressName] == f[ProgressName] <==> !NullTotal(f[ProgressName]))
  {
    ProgressPrintsBack(r, f[ProgressName]);
    IdentityPrintsBack(r, f[Continuation]);
    ArtifactsPrintBack(r, f[CheckpointArtifacts].items);
    ContextPrintsBack(r, f[ResumeContext]);
  }

  lemma FailedPrintsBack(r: Rules, f: map<Name, Doc>)
    requires ParseFailed(r, f).Some?
    ensures ParseFailed(r, f).value.Failed?
    ensures var g := PrintOutcome(ParseFailed(r, f).value);
      && g.Keys == {Error} + (if ProgressName in f then {ProgressName} else {}) && g[Error] == f[Error]
      && (ProgressName in f ==> (g[ProgressName] == f[ProgressName] <==> !NullTotal(f[ProgressName])))
  {
    if ProgressName in f {
      ProgressPrintsBack(r, f[ProgressName]);
    }
  }

  lemma Reassemble(common: map<Name, Doc>, own: map<Name, Doc>, f: map<Name, Doc>)
    requires f.Keys == common.Keys + own.Keys && common.Keys !! own.Keys
    requires forall n <- common :: common[n] == f[n]
    ensures common + own == f <==> forall n <- own :: own[n] == f[n]
  {
    assert forall n <- own :: (common + own)[n] == own[n];
  }

  lemma CommonPrintsBack(r: Rules, d: Doc, x: Receipt)
    requires Parse(r, d) == Some(x)
    ensures PrintCommon(r, x).Keys == COMMON_NAMES && COMMON_NAMES <= d.fields.Keys
    ensures forall n <- PrintCommon(r, x) :: PrintCommon(r, x)[n] == d.fields[n]
    ensures if d.fields[Status] == Str(READY) then ParseReady(r, d.fields) == Some(x.outcome) else ParseFailed(r, d.fields) == Some(x.outcome)
  {}

  lemma NamesAreApart()
    ensures COMMON_NAMES !! READY_NAMES && COMMON_NAMES !! {Error, ProgressName}
  {}

  lemma ReadyDocumentPrintsBack(r: Rules, d: Doc, x: Receipt)
    requires d.Dict? && ParseReady(r, d.fields) == Some(x.outcome)
    requires PrintCommon(r, x).Keys == COMMON_NAMES && COMMON_NAMES <= d.fields.Keys
    requires forall n <- PrintCommon(r, x) :: PrintCommon(r, x)[n] == d.fields[n]
    ensures Print(r, x) == d <==> !(ProgressName in d.fields && NullTotal(d.fields[ProgressName]))
  {
    ReadyPrintsBack(r, d.fields);
    var own := PrintOutcome(x.outcome);
    ReadyFieldsAgree(own, d.fields);
    NamesAreApart();
    Reassemble(PrintCommon(r, x), own, d.fields);
    assert Print(r, x).fields == PrintCommon(r, x) + own;
  }

  lemma FailedDocumentPrintsBack(r: Rules, d: Doc, x: Receipt)
    requires d.Dict? && ParseFailed(r, d.fields) == Some(x.outcome)
    requires PrintCommon(r, x).Keys == COMMON_NAMES && COMMON_NAMES <= d.fields.Keys
    requires forall n <- PrintCommon(r, x) :: PrintCommon(r, x)[n] == d.fields[n]
    ensures Print(r, x) == d <==> !(ProgressName in d.fields && NullTotal(d.fields[ProgressName]))
  {
    FailedPrintsBack(r, d.fields);
    var own := PrintOutcome(x.outcome);
    NamesAreApart();
    Reassemble(PrintCommon(r, x), own, d.fields);
    assert Print(r, x).fields == PrintCommon(r, x) + own;
  }

  /** The other direction: a document that is accepted is what its receipt prints, except exactly when its
      progress spells an absent total as null. */
  lemma AcceptedDocumentPrintsBack(r: Rules, d: Doc, x: Receipt)
    requires Parse(r, d) == Some(x)
    ensures Print(r, x) == d <==> !(ProgressName in d.fields && NullTotal(d.fields[ProgressName]))
  {
    CommonPrintsBack(r, d, x);
    if d.fields[Status] == Str(READY) {
      ReadyDocumentPrintsBack(r, d, x);
    } else {
      FailedDocumentPrintsBack(r, d, x);
    }
  }

  /** What a reader can rely on about an accepted receipt. */
  lemma AcceptedIsChecked(r: Rules, d: Doc, x: Receipt)
    requires Parse(r, d) == Some(x)
    ensures r.text(RequestId, x.requestId) && r.text(WrittenAt, x.writtenAt)
    ensures 1 <= x.item <= 0x1F_FFFF_FFFF_FFFF && 1 <= x.segment <= 0x1F_FFFF_FFFF_FFFF
    ensures x.outcome.Ready? ==> ProgressIsChecked(r, x.outcome.progress) && ClaimIsChecked(r, x.outcome.claim)
    ensures x.outcome.Failed? ==> r.text(Error, x.outcome.error) && (x.outcome.partial.Some? ==> ProgressIsChecked(r, x.outcome.partial.value))
  {
    ParsedIsValid(r, d, x);
    if x.outcome.Ready? {
      ClaimMeans(r, x.outcome.claim);
    }
  }

  lemma ParsedIsValid(r: Rules, d: Doc, x: Receipt)
    requires Parse(r, d) == Some(x)
    ensures Valid(r, x)
  {}

  lemma ClaimMeans(r: Rules, c: Claim)
    requires ValidClaim(r, c)
    ensures ClaimIsChecked(r, c)
  {
    forall i | 0 <= i < |c.artifacts| ensures ValidArtifact(r, c.artifacts[i]) {
      assert c.artifacts[i] in c.artifacts;
    }
  }

  predicate ProgressIsChecked(r: Rules, p: Progress) {
    && r.text(Unit, p.unit) && 0 <= p.completed <= 0x1F_FFFF_FFFF_FFFF
    && (p.total.Some? ==> p.completed <= p.total.value <= 0x1F_FFFF_FFFF_FFFF)
  }

  /** A ready receipt binds the continuation, the payload and at least one checkpoint file, each named once. */
  predicate ClaimIsChecked(r: Rules, c: Claim) {
    && c.continuation.digest == DigestOf(r.hash, r.labels, c.continuation.evidence)
    && r.text(ResolvedSpec, c.continuation.evidence.spec) && r.text(ProjectRevision, c.continuation.evidence.revision)
    && r.text(GitCommit, c.continuation.evidence.commit) && r.text(RunId, c.continuation.evidence.run)
    && r.text(PriorReceipt, c.continuation.evidence.prior)
    && r.text(MediaType, c.context.mediaType) && c.context.sha256 == r.hash(c.context.payload)
    && c.artifacts != []
    && (forall i | 0 <= i < |c.artifacts| ::
          var a := c.artifacts[i];
          r.text(ArtifactName, a.name) && r.text(Path, a.path) && 0 <= a.bytes <= 0x1F_FFFF_FFFF_FFFF && r.text(Sha256, a.sha256) && r.text(MediaType, a.mediaType))
    && (forall i, j | 0 <= i < j < |c.artifacts| :: c.artifacts[i].name != c.artifacts[j].name && c.artifacts[i].path != c.artifacts[j].path)
  }
}
