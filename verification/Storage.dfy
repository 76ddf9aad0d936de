/** Storing an admission snapshot and reading it back by compiling it again. */
module Storage {
  import opened FileSystem
  import opened Canonical
  import opened Admission
  import D = Dependencies
  import U = Utf8

  /** The byte columns of the stored evidence. */
  datatype Slot =
    | ProjectSource | ProjectDocument | CardSource | CardDocument | ResolvedSlot | CommandSlot
    | BindingsSlot | DependenciesSlot | PolicySlot | SchemaSource | SchemaDocument

  /** A SQLite column holds the flag as a boolean or as 0 or 1. */
  datatype Flag = FlagBool(b: bool) | FlagInt(i: int)

  datatype Stored = Stored(
    revision: Text, commit: Text, projectName: Text, cardName: Text, version: Text,
    schemaName: Option<Text>, schemaPath: Option<Text>, schemaId: Option<Text>,
    key: Text, cardPath: Text, jobId: Text, priority: int, hold: Option<Text>, operator: Text, preempt: Flag,
    blobs: map<Slot, Blob>, digests: map<Slot, Text>)

  const DOCUMENTS: set<Slot> :=
    {ProjectDocument, CardDocument, ResolvedSlot, CommandSlot, BindingsSlot, DependenciesSlot, PolicySlot}
  const ALWAYS: set<Slot> := DOCUMENTS + {ProjectSource, CardSource}
  const SCHEMA_SLOTS: set<Slot> := {SchemaSource, SchemaDocument}

  function Digests(w: World, blobs: map<Slot, Blob>): map<Slot, Text> {
    map s | s in blobs :: w.hash(blobs[s])
  }

  // ---------------------------------------------------------------- storing

  /** The member names of the policy document; all that matters of them is that they differ. */
  const KEY: Text := [1]
  const PATH: Text := [2]
  const JOB: Text := [3]
  const BINDINGS: Text := [4]
  const PRIORITY: Text := [5]
  const HOLD: Text := [6]
  const DEPENDENCIES: Text := [7]
  const OPERATOR: Text := [8]
  const AUTHORIZED: Text := [9]

  /** `SubmissionPolicy.to_document`. */
  function PolicyDocument(p: Policy): Value
    requires p.bindings.Rendered?
  {
    Obj(PolicyTexts(p)[BINDINGS := p.bindings.normal][PRIORITY := Int(p.priority)][DEPENDENCIES := Arr(D.AsValues(p.dependencies))])
  }

  function PolicyTexts(p: Policy): map<Text, Value> {
    map[KEY := Str(p.key), PATH := Str(p.cardPath), JOB := Str(p.jobId), OPERATOR := Str(p.operator),
        HOLD := if p.hold.Some? then Str(p.hold.value) else Null, AUTHORIZED := Bool(p.preempt)]
  }

  function BaseBlobs(s: Snapshot): map<Slot, Blob>
    requires s.policy.bindings.Rendered?
  {
    map[ProjectSource := Raw(s.projectSource), ProjectDocument := s.projectDocument, CardSource := Raw(s.cardSource),
        CardDocument := s.cardDocument, ResolvedSlot := s.resolved, CommandSlot := Rendered(Norm(s.command)),
        BindingsSlot := s.policy.bindings, DependenciesSlot := Rendered(Norm(Arr(D.AsValues(s.policy.dependencies)))),
        PolicySlot := Rendered(Norm(PolicyDocument(s.policy)))]
  }

  function Blobs(s: Snapshot): map<Slot, Blob>
    requires s.policy.bindings.Rendered?
  {
    if s.extension.None? then BaseBlobs(s)
    else BaseBlobs(s)[SchemaSource := Raw(s.extension.value.source)][SchemaDocument := s.extension.value.document]
  }

  /** The three documents that storing encodes afresh can be encoded. */
  predicate Storable(s: Snapshot) {
    && s.policy.bindings.Rendered?
    && Encodable(s.command, 0) && Encodable(Arr(D.AsValues(s.policy.dependencies)), 0) && Encodable(PolicyDocument(s.policy), 0)
  }

  /** `admission_snapshot_to_stored_evidence`. */
  function Store(w: World, s: Snapshot): Option<Stored> {
    if !Storable(s) then None
    else
      var e := s.extension;
      Some(Stored(s.revision, s.commit, s.projectName, s.cardName, s.version,
                  if e.None? then None else Some(e.value.name), if e.None? then None else Some(e.value.path),
                  if e.None? then None else e.value.id,
                  s.policy.key, s.policy.cardPath, s.policy.jobId, s.policy.priority, s.policy.hold, s.policy.operator,
                  FlagBool(s.policy.preempt), Blobs(s), Digests(w, Blobs(s))))
  }

  // ---------------------------------------------------------------- reading back

  function FlagOf(f: Flag): Option<bool> {
    match f
    case FlagBool(b) => Some(b)
    case FlagInt(i) => if i == 0 then Some(false) else if i == 1 then Some(true) else None
  }

  /** Schema evidence is all there or all absent. */
  predicate WholeSchema(t: Stored) {
    if SchemaSource in t.blobs then SchemaDocument in t.blobs && t.schemaName.Some? && t.schemaPath.Some?
    else SchemaDocument !in t.blobs && t.schemaName.None? && t.schemaPath.None? && t.schemaId.None?
  }

  predicate WellShaped(w: World, t: Stored) {
    && ALWAYS <= t.blobs.Keys <= ALWAYS + SCHEMA_SLOTS
    && t.blobs[ProjectSource].Raw? && t.blobs[CardSource].Raw? && (SchemaSource in t.blobs ==> t.blobs[SchemaSource].Raw?)
    && t.digests == Digests(w, t.blobs) && WholeSchema(t) && FlagOf(t.preempt).Some?
  }

  function Document(w: World, t: Stored, s: Slot): Option<Value>
    requires s in t.blobs
  {
    DecodeStored(w.other, t.blobs[s])
  }

  /** Every stored document is the canonical encoding of what it decodes to. */
  predicate AllDecode(w: World, t: Stored)
    requires DOCUMENTS <= t.blobs.Keys
  {
    && (forall s <- DOCUMENTS :: Document(w, t, s).Some?)
    && (SchemaDocument in t.blobs ==> Document(w, t, SchemaDocument).Some?)
    && Document(w, t, BindingsSlot).value.Obj? && Document(w, t, DependenciesSlot).value.Arr?
  }

  /** What is compiled again. */
  function Reinput(w: World, t: Stored): Input
    requires WellShaped(w, t) && AllDecode(w, t)
  {
    Input(t.blobs[ProjectSource].bytes, t.blobs[CardSource].bytes,
          Submission(t.key, t.cardPath, t.jobId, t.operator, Document(w, t, BindingsSlot).value, t.priority, t.hold,
                     Document(w, t, DependenciesSlot).value.items, FlagOf(t.preempt).value),
          t.revision, t.commit, t.version,
          if SchemaSource in t.blobs then Some(t.blobs[SchemaSource].bytes) else None, t.projectName, Some(t.cardName))
  }

  function Normalized(t: Stored): Stored {
    if FlagOf(t.preempt).Some? then t.(preempt := FlagBool(FlagOf(t.preempt).value)) else t
  }

  /** `rehydrate_admission_snapshot`. */
  function Rehydrate(w: World, t: Stored): Option<Snapshot> {
    if !WellShaped(w, t) || !AllDecode(w, t) then None
    else
      var again := Compile(w, Reinput(w, t));
      if again.Some? && Store(w, again.value) == Some(Normalized(t)) then again else None
  }

  /** Reading back and storing again is stable: whatever is read back is what storing it would write, up to the
      spelling of the flag, and that reads back as the same snapshot. */
  lemma RehydratedEvidenceIsStored(w: World, t: Stored, s: Snapshot)
    requires Rehydrate(w, t) == Some(s)
    ensures Store(w, s) == Some(Normalized(t)) && Rehydrate(w, Store(w, s).value) == Some(s)
    ensures exists x :: Compile(w, x) == Some(s)
  {
    var n := Normalized(t);
    assert Compile(w, Reinput(w, t)) == Some(s);
    assert Normalized(n) == n && WellShaped(w, n) && AllDecode(w, n);
    assert Reinput(w, n) == Reinput(w, t);
  }
}
