/**
 Cooperative yield of an imported legacy item: the queue row, its guarded updates, and the
 coordinators, scheduler, operator and project processes that interleave on it.

 Every database transaction is one step; reading, publishing and unlinking a control file
 are separate steps; any coordinator may die between any two of its steps.
 */
module Yield {
  import opened FileSystem

  // ---------------------------------------------------------------- the queue row

  datatype State =
    | Queued | Held | Blocked | Starting | Running | Yielding | Terminating | ForceKilling
    | Succeeded | Failed | Interrupted | ForceKilled | Removed

  /** The columns of `queue_items` that the yield protocol reads or writes. */
  datatype Row = Row(
    state: State,
    segment: nat,
    preemptible: bool,
    leaseHeld: bool,
    leaseReleasedAt: Option<string>,
    gpu: Option<string>,
    gpuIndex: Option<string>,
    pid: Option<nat>,
    pgid: Option<nat>,
    ticks: Option<string>,
    askedAt: Option<string>,
    askedBy: Option<string>,
    askId: Option<string>,
    askNote: Option<string>,
    checkpoint: Option<string>,
    checkpointSha: Option<string>,
    metadata: Option<string>,
    metadataSha: Option<string>)

  predicate Active(s: State) {
    s in {Starting, Running, Yielding, Terminating, ForceKilling}
  }

  predicate Pending(s: State) {
    s in {Queued, Held, Blocked}
  }

  /** The CHECK constraints of the table. */
  predicate Checks(r: Row) {
    && r.segment > 0
    && (r.pid.Some? ==> r.pid.value > 0) && (r.pgid.Some? ==> r.pgid.value > 0)
    && (r.checkpoint.None? <==> r.checkpointSha.None?)
    && (r.metadata.None? <==> r.metadataSha.None?)
    && (r.gpu.None? <==> r.gpuIndex.None?)
    && (r.leaseHeld ==> r.gpu.Some? && r.gpuIndex.Some? && r.leaseReleasedAt.None?)
    && (r.leaseReleasedAt.Some? ==> !r.leaseHeld && r.gpu.Some? && r.gpuIndex.Some?)
    && (r.leaseHeld ==> Active(r.state) || r.state in {Succeeded, Failed, Interrupted, ForceKilled})
    && (Active(r.state) ==> r.leaseHeld)
    && (r.state.Queued? ==> !r.leaseHeld)
  }

  /** The frozen manual-preemption document of one request. */
  datatype RequestDoc = RequestDoc(request: string, segment: nat, gpu: string, at: string, who: string, note: string)

  /** The document recomputed from the row alone. */
  function Rebuild(r: Row): Option<RequestDoc> {
    if r.askId.Some? && r.gpu.Some? && r.askedAt.Some? && r.askedBy.Some? && r.askNote.Some? then
      Some(RequestDoc(r.askId.value, r.segment, r.gpu.value, r.askedAt.value, r.askedBy.value, r.askNote.value))
    else None
  }

  /** A yield receipt as found on disk.  Its SHA-256 stands for the document itself: the digest
      is taken to be injective. */
  datatype Receipt = Receipt(request: string, ready: bool, valid: bool, body: Bytes)

  datatype Evidence = Evidence(checkpoint: string, checkpointSha: string, metadata: string, metadataSha: string)

  // ---------------------------------------------------------------- guarded updates

  /** `UPDATE ... SET state = 'yielding' ... WHERE state = 'running' AND segment = ?` */
  function PersistUpdate(r: Row, doc: RequestDoc): Option<Row> {
    if r.state.Running? && r.segment == doc.segment then
      Some(r.(state := Yielding, askedAt := Some(doc.at), askedBy := Some(doc.who), askId := Some(doc.request),
              askNote := Some(doc.note)))
    else None
  }

  /** Back to running: the request could not be published, or the project declined it.
      `WHERE state = 'yielding' AND segment = ? AND yield_request_id = ?` */
  function ResumeUpdate(r: Row, doc: RequestDoc): Option<Row> {
    if r.state.Yielding? && r.segment == doc.segment && r.askId == Some(doc.request) then
      Some(r.(state := Running, askedAt := None, askedBy := None, askId := None, askNote := None))
    else None
  }

  /** The next segment of a ready continuation.
      `WHERE state = 'yielding' AND runtime_gpu_lease_held = 1 AND segment = ? AND yield_request_id = ?` */
  function RequeueUpdate(r: Row, doc: RequestDoc, at: string, e: Evidence): Option<Row> {
    if r.state.Yielding? && r.leaseHeld && r.segment == doc.segment && r.askId == Some(doc.request) then
      Some(r.(state := Queued, segment := r.segment + 1, leaseHeld := false, leaseReleasedAt := Some(at),
              pid := None, pgid := None, ticks := None,
              checkpoint := Some(e.checkpoint), checkpointSha := Some(e.checkpointSha),
              metadata := Some(e.metadata), metadataSha := Some(e.metadataSha)))
    else None
  }

  /** Terminal isolation of a continuation that failed validation. */
  function IsolateUpdate(r: Row): Option<Row> {
    if r.state.Yielding? then Some(r.(state := Failed)) else None
  }

  /** What the scheduler and the operator do to the row. */
  datatype Change =
    | Dispatch(gpu: string, index: string)
    | RecordLaunch(pid: nat, pgid: nat, ticks: Option<string>)
    | Terminate(force: bool)
    | Escalate
    | TerminationDone
    | ExitReceipt(success: bool)
    | FailActive
    | Abandon
    | ReleaseLease(at: string)
    | MoveQueued(target: State)

  function ChangeUpdate(r: Row, c: Change): Option<Row> {
    match c
    case Dispatch(gpu, index) =>
      if r.state.Queued? then
        Some(r.(state := Starting, gpu := Some(gpu), gpuIndex := Some(index), leaseHeld := true, leaseReleasedAt := None,
                pid := None, pgid := None, ticks := None))
      else None
    case RecordLaunch(pid, pgid, ticks) =>
      if r.state in {Starting, Terminating, ForceKilling} && r.pid.None? && r.pgid.None? && r.ticks.None? && pid > 0 && pgid > 0 then
        Some(r.(state := if r.state.Starting? then Running else r.state, pid := Some(pid), pgid := Some(pgid), ticks := ticks))
      else None
    case Terminate(force) =>
      if r.state in {Running, Yielding} || (force && r.state.Terminating?) then
        Some(r.(state := if force then ForceKilling else Terminating))
      else None
    case Escalate =>
      if r.state.Terminating? then Some(r.(state := ForceKilling)) else None
    case TerminationDone =>
      if r.state.Terminating? then Some(r.(state := Interrupted))
      else if r.state.ForceKilling? then Some(r.(state := ForceKilled))
      else None
    case ExitReceipt(success) =>
      if r.state in {Starting, Running} then Some(r.(state := if success then Succeeded else Failed))
      else if r.state.Terminating? then Some(r.(state := Interrupted))
      else if r.state.ForceKilling? then Some(r.(state := ForceKilled))
      else None
    case FailActive =>
      if r.state.Terminating? then Some(r.(state := Interrupted))
      else if r.state.ForceKilling? then Some(r.(state := ForceKilled))
      else if Active(r.state) then Some(r.(state := Failed))
      else None
    case Abandon =>
      if Active(r.state) && r.leaseHeld then Some(r.(state := Failed)) else None
    case ReleaseLease(at) =>
      if !Active(r.state) && r.leaseHeld then Some(r.(leaseHeld := false, leaseReleasedAt := Some(at))) else None
    case MoveQueued(target) =>
      if (r.state in {Queued, Blocked} && target.Held?) || (r.state in {Held, Blocked} && target.Queued?)
         || (r.state.Queued? && target.Blocked?) || (Pending(r.state) && target.Removed?) then
        Some(r.(state := target))
      else None
  }

  // ---------------------------------------------------------------- coordinators and files

  datatype Event =
    | PreemptionRequested(doc: RequestDoc)
    | RequestFailed(request: string, restored: bool)
    | YieldFailed(receipt: Receipt)
    | Requeued(request: string, receipt: Receipt, segmentFinished: nat)
    | Isolated(segment: nat)

  datatype Coord =
    | Began(segment: nat)                               // a new request: the item was read
    | StaleRead(segment: nat, receipt: Receipt)         // a leftover receipt was read
    | Discarding(segment: nat, receipt: Receipt)        // ... and found recorded
    | Cleared(segment: nat)                             // no leftover in the way
    | Persisted(doc: RequestDoc)                        // request committed, not yet published
    | Unpublished(doc: RequestDoc)                      // publication reported an error
    | Recovering(doc: RequestDoc)                       // request rebuilt from the row
    | Holding(doc: RequestDoc)                          // pending continuation returned
    | FailureRead(doc: RequestDoc, receipt: Receipt)
    | FailureCommitted(doc: RequestDoc, receipt: Receipt)
    | ReadyRead(doc: RequestDoc, receipt: Receipt)
    | Rejected(doc: RequestDoc)                         // receipt failed validation
    | Finished

  /** `requests` and `receipts` are the control files of each segment.  The rest is history:
      `asked` every request ever persisted, `latest` the last one of each segment, `answered` the
      receipt the project wrote for each request, `deleted` what coordinators unlinked, and
      `overlapped` whether a request was ever persisted over a hazard. */
  datatype Sys = Sys(
    row: Row,
    events: seq<Event>,
    coords: map<nat, Coord>,
    requests: map<nat, RequestDoc>,
    receipts: map<nat, Receipt>,
    asked: map<string, RequestDoc>,
    latest: map<nat, string>,
    answered: map<string, Receipt>,
    deleted: seq<Receipt>,
    overlapped: bool)

  datatype Action =
    | Outside(change: Change)
    | Answer(segment: nat, receipt: Receipt)
    | Begin(c: nat)
    | Look(c: nat)
    | Authenticate(c: nat)
    | Unlink(c: nat, ok: bool, effect: bool)
    | Persist(c: nat, doc: RequestDoc)
    | Publish(c: nat, ok: bool, effect: bool)
    | Restore(c: nat)
    | Recover(c: nat)
    | Compare(c: nat)
    | ReadReceipt(c: nat)
    | AcceptFailure(c: nat)
    | Requeue(c: nat, at: string, evidence: Evidence)
    | Isolate(c: nat)
    | Crash

  /** The digest of the most recent committed failure, `ORDER BY id DESC LIMIT 1`. */
  function LastFailure(events: seq<Event>): Option<Receipt> {
    if events == [] then None
    else if events[|events| - 1].YieldFailed? then Some(events[|events| - 1].receipt)
    else LastFailure(events[..|events| - 1])
  }

  /** About to unlink the receipt path of a segment. */
  predicate Unlinking(k: Coord, segment: nat) {
    (k.Discarding? && k.segment == segment) || (k.FailureCommitted? && k.doc.segment == segment)
  }

  /** ... or about to be allowed to. */
  predicate Endangers(s: Sys, k: Coord, segment: nat) {
    Unlinking(k, segment) || (k.StaleRead? && k.segment == segment && LastFailure(s.events) == Some(k.receipt))
  }

  /** What makes a new request dangerous: its receipt path still holds the receipt of the last recorded
      failure, or another coordinator is on its way to unlinking that path. */
  predicate Hazard(s: Sys, c: nat, doc: RequestDoc) {
    || (doc.segment in s.receipts && LastFailure(s.events) == Some(s.receipts[doc.segment]))
    || exists d :: d in s.coords && d != c && Endangers(s, s.coords[d], doc.segment)
  }

  predicate Enabled(s: Sys, a: Action)
  {
    match a
    case Outside(change) => ChangeUpdate(s.row, change).Some?
    // the project answers the published request, at most once
    case Answer(segment, receipt) =>
      && segment in s.requests && s.requests[segment].request == receipt.request
      && receipt.request !in s.answered
    case Begin(c) => c !in s.coords && s.row.state.Running? && s.row.preemptible
    case Look(c) => c in s.coords && s.coords[c].Began?
    case Authenticate(c) => c in s.coords && s.coords[c].StaleRead?
    case Unlink(c, _, _) => c in s.coords && (s.coords[c].Discarding? || s.coords[c].FailureCommitted?)
    case Persist(c, doc) =>
      && c in s.coords && s.coords[c].Cleared? && s.coords[c].segment == doc.segment
      && doc.request !in s.asked
      && (s.row.state.Running? ==> s.row.gpu == Some(doc.gpu))
    case Publish(c, _, _) => c in s.coords && s.coords[c].Persisted?
    case Restore(c) => c in s.coords && s.coords[c].Unpublished?
    case Recover(c) => c !in s.coords && s.row.state.Yielding? && s.row.preemptible && Rebuild(s.row).Some?
    case Compare(c) => c in s.coords && s.coords[c].Recovering?
    case ReadReceipt(c) => c in s.coords && s.coords[c].Holding? && s.coords[c].doc.segment in s.receipts
    case AcceptFailure(c) => c in s.coords && s.coords[c].FailureRead?
    case Requeue(c, _, _) => c in s.coords && s.coords[c].ReadyRead?
    case Isolate(c) => c in s.coords && (s.coords[c].FailureRead? || s.coords[c].ReadyRead? || s.coords[c].Rejected? || s.coords[c].Holding?)
    case Crash => true
  }

  function Put(s: Sys, c: nat, k: Coord): Sys {
    s.(coords := s.coords[c := k])
  }

  function Log(s: Sys, e: Event): Sys {
    s.(events := s.events + [e])
  }

  function LookStep(s: Sys, c: nat): Sys
    requires c in s.coords && s.coords[c].Began?
  {
    var segment := s.coords[c].segment;
    Put(s, c, if segment in s.receipts then StaleRead(segment, s.receipts[segment]) else Cleared(segment))
  }

  function AuthenticateStep(s: Sys, c: nat): Sys
    requires c in s.coords && s.coords[c].StaleRead?
  {
    var StaleRead(segment, receipt) := s.coords[c];
    Put(s, c, if LastFailure(s.events) == Some(receipt) then Discarding(segment, receipt) else Finished)
  }

  /** The removal of a receipt file and the directory sync behind it, which may fail after the removal. */
  function UnlinkStep(s: Sys, c: nat, ok: bool, effect: bool): Sys
    requires c in s.coords && (s.coords[c].Discarding? || s.coords[c].FailureCommitted?)
  {
    var k := s.coords[c];
    var segment := if k.Discarding? then k.segment else k.doc.segment;
    var t := if (ok || effect) && segment in s.receipts
             then s.(receipts := s.receipts - {segment}, deleted := s.deleted + [s.receipts[segment]])
             else s;
    Put(t, c, if ok && k.Discarding? then Cleared(segment) else Finished)
  }

  function PersistStep(s: Sys, c: nat, doc: RequestDoc): Sys {
    var updated := PersistUpdate(s.row, doc);
    if updated.None? then Put(s, c, Finished)
    else
      Put(Log(s, PreemptionRequested(doc)), c, Persisted(doc))
        .(row := updated.value, asked := s.asked[doc.request := doc], latest := s.latest[doc.segment := doc.request],
          overlapped := s.overlapped || Hazard(s, c, doc))
  }

  function PublishStep(s: Sys, c: nat, ok: bool, effect: bool): Sys
    requires c in s.coords && s.coords[c].Persisted?
  {
    var doc := s.coords[c].doc;
    var t := if ok || effect then s.(requests := s.requests[doc.segment := doc]) else s;
    Put(t, c, if ok then Holding(doc) else Unpublished(doc))
  }

  function RestoreStep(s: Sys, c: nat): Sys
    requires c in s.coords && s.coords[c].Unpublished?
  {
    var doc := s.coords[c].doc;
    var updated := ResumeUpdate(s.row, doc);
    var t := if updated.Some? then s.(row := updated.value) else s;
    Put(Log(t, RequestFailed(doc.request, updated.Some?)), c, Finished)
  }

  function CompareStep(s: Sys, c: nat): Sys
    requires c in s.coords && s.coords[c].Recovering?
  {
    var doc := s.coords[c].doc;
    Put(s, c, if doc.segment in s.requests && s.requests[doc.segment] == doc then Holding(doc) else Finished)
  }

  function ReadReceiptStep(s: Sys, c: nat): Sys
    requires c in s.coords && s.coords[c].Holding? && s.coords[c].doc.segment in s.receipts
  {
    var doc := s.coords[c].doc;
    var receipt := s.receipts[doc.segment];
    Put(s, c, if receipt.request != doc.request || !receipt.valid then Rejected(doc)
              else if receipt.ready then ReadyRead(doc, receipt)
              else FailureRead(doc, receipt))
  }

  function AcceptFailureStep(s: Sys, c: nat): Sys
    requires c in s.coords && s.coords[c].FailureRead?
  {
    var FailureRead(doc, receipt) := s.coords[c];
    var updated := ResumeUpdate(s.row, doc);
    if updated.None? then Put(s, c, Finished)
    else Put(Log(s, YieldFailed(receipt)), c, FailureCommitted(doc, receipt)).(row := updated.value)
  }

  function RequeueStep(s: Sys, c: nat, at: string, evidence: Evidence): Sys
    requires c in s.coords && s.coords[c].ReadyRead?
  {
    var ReadyRead(doc, receipt) := s.coords[c];
    var updated := RequeueUpdate(s.row, doc, at, evidence);
    if updated.None? then Put(s, c, Finished)
    else Put(Log(s, Requeued(doc.request, receipt, doc.segment)), c, Finished).(row := updated.value)
  }

  function IsolateStep(s: Sys, c: nat): Sys {
    var updated := IsolateUpdate(s.row);
    if updated.None? then Put(s, c, Finished)
    else Put(Log(s, Isolated(s.row.segment)), c, Finished).(row := updated.value)
  }

  function Next(s: Sys, a: Action): Sys
    requires Enabled(s, a)
  {
    match a
    case Outside(change) => s.(row := ChangeUpdate(s.row, change).value)
    case Answer(segment, receipt) =>
      s.(receipts := s.receipts[segment := receipt], answered := s.answered[receipt.request := receipt])
    case Begin(c) => Put(s, c, Began(s.row.segment))
    case Look(c) => LookStep(s, c)
    case Authenticate(c) => AuthenticateStep(s, c)
    case Unlink(c, ok, effect) => UnlinkStep(s, c, ok, effect)
    case Persist(c, doc) => PersistStep(s, c, doc)
    case Publish(c, ok, effect) => PublishStep(s, c, ok, effect)
    case Restore(c) => RestoreStep(s, c)
    case Recover(c) => Put(s, c, Recovering(Rebuild(s.row).value))
    case Compare(c) => CompareStep(s, c)
    case ReadReceipt(c) => ReadReceiptStep(s, c)
    case AcceptFailure(c) => AcceptFailureStep(s, c)
    case Requeue(c, at, evidence) => RequeueStep(s, c, at, evidence)
    case Isolate(c) => IsolateStep(s, c)
    case Crash => s.(coords := map[])
  }
}
