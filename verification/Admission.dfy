/**
 The admission compiler: exact sources, a submission and a revision become frozen evidence; the evidence
 is stored; and storage is read back by compiling again and comparing everything.
 */
module Admission {
  import opened FileSystem
  import opened Canonical
  import D = Dependencies
  import U = Utf8

  const SIGNED_64: int := 0x8000_0000_0000_0000

  /** `bindings` is the detached copy of the caller's object. */
  datatype Submission = Submission(
    key: Text, cardPath: Text, jobId: Text, operator: Text, bindings: Value,
    priority: int, hold: Option<Text>, dependencies: seq<Value>, preempt: bool)

  datatype Input = Input(
    projectSource: Bytes, cardSource: Bytes, submission: Submission, revision: Text, commit: Text, version: Text,
    schemaSource: Option<Bytes>, projectName: Text, cardName: Option<Text>)

  datatype Schema = Schema(name: Text, path: Text, document: Value, id: Option<Text>)

  datatype Rule = RevisionText | VersionText | JobText | OperatorText | HoldText

  /** The parts of the compiler that are functions of what they are given, and nothing more is known:
      the YAML models, their validation, the text rules, the hash. */
  datatype World = World(
    text: (Rule, Text) -> bool,
    portable: Text -> bool,
    project: (Bytes, Text) -> Option<Value>,
    card: (Bytes, Text) -> Option<Value>,
    compatible: (Value, Value) -> bool,
    bare: (Value, Value) -> bool,                           // no extension schema is declared or needed
    schema: (Value, Value, Bytes) -> Option<Schema>,
    keys: (Value, Value) -> (Text, Text),
    beneath: (Value, Text) -> bool,
    parameters: Value -> map<Text, Value>,
    job: (Value, Text) -> Option<Value>,
    command: Value -> Value,
    cooperative: Value -> bool,
    rest: (Value, Value, Value, Option<Schema>) -> map<Text, Value>,
    token: Pattern,
    hash: Blob -> Text,
    other: Loader)

  const RESERVED: Text := [36, 98, 105, 110, 100, 105, 110, 103]
  const PARAMETERS: Text := [112, 97, 114, 97, 109, 101, 116, 101, 114, 115]
  const CARD_PATH: Text := [99, 97, 114, 100, 80, 97, 116, 104]
  const REVISION: Text := [112, 114, 111, 106, 101, 99, 116, 82, 101, 118, 105, 115, 105, 111, 110]
  const COMMIT: Text := [103, 105, 116, 67, 111, 109, 109, 105, 116]
  const PREEMPT: Text := [112, 114, 101, 101, 109, 112, 116, 105, 111, 110, 65, 117, 116, 104, 111, 114, 105, 122, 101, 100]
  const COMPILER: Text := [99, 111, 109, 112, 105, 108, 101, 114]
  const PROJECT_ENTRY: Text := [112, 114, 111, 106, 101, 99, 116]
  const JOB_ENTRY: Text := [106, 111, 98]
  const PACKAGE: Text := [112, 97, 99, 107, 97, 103, 101]
  const VERSION: Text := [118, 101, 114, 115, 105, 111, 110]
  const EXPERIMENT_QUEUE: Text := [101, 120, 112, 101, 114, 105, 109, 101, 110, 116, 45, 113, 117, 101, 117, 101]

  // ---------------------------------------------------------------- Git object names

  predicate Hex(c: U.CodePoint) {
    48 <= c < 58 || 65 <= c < 71 || 97 <= c < 103
  }

  predicate FullCommit(t: Text) {
    (|t| == 40 || |t| == 64) && forall i | 0 <= i < |t| :: Hex(t[i])
  }

  function Lower(t: Text): Text {
    seq(|t|, i requires 0 <= i < |t| => if 65 <= t[i] < 91 then t[i] + 32 else t[i])
  }

  lemma LowerIsIdempotent(t: Text)
    requires FullCommit(t)
    ensures FullCommit(Lower(t)) && Lower(Lower(t)) == Lower(t)
  {}

  // ---------------------------------------------------------------- compiling

  datatype Policy = Policy(
    key: Text, cardPath: Text, jobId: Text, priority: int, hold: Option<Text>, dependencies: seq<int>,
    operator: Text, preempt: bool, bindings: Blob)

  datatype Extension = Extension(name: Text, path: Text, source: Bytes, document: Blob, id: Option<Text>)

  datatype Snapshot = Snapshot(
    projectName: Text, projectSource: Bytes, projectDocument: Blob,
    cardName: Text, cardSource: Bytes, cardDocument: Blob,
    extension: Option<Extension>, resolved: Blob, command: Value,
    revision: Text, commit: Text, version: Text, policy: Policy)

  predicate GoodText(w: World, rule: Rule, t: Text) {
    U.Encodable(t) && w.text(rule, t)
  }

  predicate GoodPath(w: World, t: Text) {
    U.Encodable(t) && w.portable(t)
  }

  function Project(w: World, x: Input): Option<Value> {
    w.project(x.projectSource, x.projectName)
  }

  function Card(w: World, x: Input): Option<Value> {
    w.card(x.cardSource, x.submission.cardPath)
  }

  function SchemaOf(w: World, x: Input, p: Value, c: Value): Option<Schema> {
    if x.schemaSource.None? then None else w.schema(p, c, x.schemaSource.value)
  }

  /** The detached submission by itself. */
  predicate GoodSubmission(w: World, sub: Submission) {
    && sub.bindings.Obj? && Encodable(sub.bindings, 0) && D.Copied(sub.dependencies).Some?
    && GoodPath(w, sub.cardPath) && GoodText(w, JobText, sub.jobId) && GoodText(w, OperatorText, sub.operator)
    && (sub.hold.Some? ==> GoodText(w, HoldText, sub.hold.value))
    && U.Encodable(sub.key) && -SIGNED_64 <= sub.priority < SIGNED_64
  }

  predicate GoodFrame(w: World, x: Input) {
    && GoodPath(w, x.projectName) && (x.cardName.Some? ==> x.cardName.value == x.submission.cardPath)
    && GoodText(w, RevisionText, x.revision) && FullCommit(x.commit) && GoodText(w, VersionText, x.version)
  }

  predicate GoodSources(w: World, x: Input) {
    && Project(w, x).Some? && Card(w, x).Some?
    && var p, c := Project(w, x).value, Card(w, x).value;
       && Encodable(p, 0) && Encodable(c, 0) && w.compatible(p, c)
       && w.keys(p, c) == (x.submission.key, x.submission.key) && w.beneath(p, x.submission.cardPath)
       && (if x.schemaSource.None? then w.bare(p, c)
           else SchemaOf(w, x, p, c).Some? && Encodable(SchemaOf(w, x, p, c).value.document, 0))
       && w.job(c, x.submission.jobId).Some?
       && (x.submission.preempt ==> w.cooperative(w.job(c, x.submission.jobId).value))
  }

  /** Bindings replace whole declared parameters. */
  function ResolvedParameters(w: World, c: Value, bindings: map<Text, Value>): map<Text, Value> {
    (map k | k in w.parameters(c) :: Norm(w.parameters(c)[k])) + bindings
  }

  /** The execution identity.  Nothing in it comes from priority, hold reason, dependencies or operator. */
  function Resolved(w: World, x: Input, p: Value, c: Value, j: Value): Value
    requires x.submission.bindings.Obj?
  {
    Obj(Entries(w, x, p, c, j)[PARAMETERS := Obj(ResolvedParameters(w, c, x.submission.bindings.members))])
  }

  /** Everything in it but the parameters. */
  function Entries(w: World, x: Input, p: Value, c: Value, j: Value): map<Text, Value> {
    w.rest(p, c, j, SchemaOf(w, x, p, c))
      [PROJECT_ENTRY := p][JOB_ENTRY := j][CARD_PATH := Str(x.submission.cardPath)][REVISION := Str(x.revision)]
      [COMMIT := Str(Lower(x.commit))][PREEMPT := Bool(x.submission.preempt)][COMPILER := CompilerEntry(x.version)]
  }

  function CompilerEntry(version: Text): Value {
    Obj(map[PACKAGE := Str(EXPERIMENT_QUEUE), VERSION := Str(version)])
  }

  predicate GoodBindings(w: World, x: Input)
    requires GoodSubmission(w, x.submission) && GoodSources(w, x)
  {
    var p, c := Project(w, x).value, Card(w, x).value;
    var j := w.job(c, x.submission.jobId).value;
    && x.submission.bindings.members.Keys <= w.parameters(c).Keys && Encodable(Obj(w.parameters(c)), 0)
    && !Tainted(RESERVED, w.token, Obj(ResolvedParameters(w, c, x.submission.bindings.members)))
    && Encodable(Resolved(w, x, p, c, j), 0)
  }

  predicate Accepted(w: World, x: Input) {
    GoodSubmission(w, x.submission) && GoodFrame(w, x) && GoodSources(w, x) && GoodBindings(w, x)
  }

  function PolicyOf(w: World, sub: Submission): Policy
    requires GoodSubmission(w, sub)
  {
    Policy(sub.key, sub.cardPath, sub.jobId, sub.priority, sub.hold, D.Copied(sub.dependencies).value,
           sub.operator, sub.preempt, Rendered(Norm(sub.bindings)))
  }

  function ExtensionOf(w: World, x: Input, p: Value, c: Value): Option<Extension> {
    var schema := SchemaOf(w, x, p, c);
    if schema.None? || x.schemaSource.None? then None
    else Some(Extension(schema.value.name, schema.value.path, x.schemaSource.value, Rendered(Norm(schema.value.document)), schema.value.id))
  }

  function Build(w: World, x: Input): Snapshot
    requires Accepted(w, x)
  {
    var p, c := Project(w, x).value, Card(w, x).value;
    var j := w.job(c, x.submission.jobId).value;
    Snapshot(x.projectName, x.projectSource, Rendered(Norm(p)), x.submission.cardPath, x.cardSource, Rendered(Norm(c)),
             ExtensionOf(w, x, p, c), Rendered(Norm(Resolved(w, x, p, c, j))), w.command(j),
             x.revision, Lower(x.commit), x.version, PolicyOf(w, x.submission))
  }

  /** `_compile_admission_with_version`. */
  function Compile(w: World, x: Input): Option<Snapshot> {
    if Accepted(w, x) then Some(Build(w, x)) else None
  }
}
