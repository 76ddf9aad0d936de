/**
 Guarantees of the yield protocol over every run.
 */
module YieldTheorems {
  import opened FileSystem
  import opened Yield
  import opened YieldInvariant

  function Exec(s: Sys, acts: seq<Action>): Option<Sys>
  {
    if acts == [] then Some(s)
    else
      var mid := Exec(s, acts[..|acts| - 1]);
      if mid.Some? && Enabled(mid.value, acts[|acts| - 1]) then Some(Next(mid.value, acts[|acts| - 1])) else None
  }

  /** An imported item, not yet asked to yield. */
  predicate Initial(s: Sys) {
    && Checks(s.row) && !s.row.state.Yielding?
    && s.events == [] && s.coords == map[] && s.requests == map[] && s.receipts == map[]
    && s.asked == map[] && s.latest == map[] && s.answered == map[] && s.deleted == [] && !s.overlapped
  }

  predicate Reaches(s0: Sys, acts: seq<Action>, s: Sys) {
    Initial(s0) && Exec(s0, acts) == Some(s)
  }

  lemma {:induction false} RunKeepsInv(s0: Sys, acts: seq<Action>, s: Sys)
    requires Reaches(s0, acts, s)
    ensures Inv(s)
    decreases |acts|
  {
    if acts != [] {
      var mid := Exec(s0, acts[..|acts| - 1]).value;
      RunKeepsInv(s0, acts[..|acts| - 1], mid);
      StepKeepsInv(mid, acts[|acts| - 1]);
    }
  }

  /** In every reachable state the row satisfies the GPU-lease and other CHECKs of the schema. */
  lemma RowAlwaysSatisfiesChecks(s0: Sys, acts: seq<Action>, s: Sys)
    requires Reaches(s0, acts, s)
    ensures Checks(s.row)
    ensures Active(s.row.state) ==> s.row.leaseHeld && s.row.gpu.Some?
  {
    RunKeepsInv(s0, acts, s);
  }

  // ---------------------------------------------------------------- segments

  /** How many ready receipts have been accepted. */
  function ReadyAccepted(events: seq<Event>): nat {
    if events == [] then 0
    else ReadyAccepted(events[..|events| - 1]) + if events[|events| - 1].Requeued? then 1 else 0
  }

  lemma ReadyAcceptedLog(events: seq<Event>, e: Event)
    ensures ReadyAccepted(events + [e]) == ReadyAccepted(events) + if e.Requeued? then 1 else 0
  {
    assert (events + [e])[..|events|] == events;
  }

  /** Does this step accept a ready receipt? */
  predicate AcceptsReady(s: Sys, a: Action)
    requires Enabled(s, a)
  {
    a.Requeue? && RequeueUpdate(s.row, s.coords[a.c].doc, a.at, a.evidence).Some?
  }

  lemma StepMovesSegment(s: Sys, a: Action)
    requires Inv(s) && Enabled(s, a)
    ensures Next(s, a).row.segment == s.row.segment + if AcceptsReady(s, a) then 1 else 0
  {
    if a.Outside? {
      SchedulerUpdatesKeepChecks(s.row, a.change);
    }
  }

  predicate Quiet(a: Action) {
    !a.Persist? && !a.Restore? && !a.AcceptFailure? && !a.Requeue? && !a.Isolate?
  }

  lemma QuietStepLogsNothing(s: Sys, a: Action)
    requires Enabled(s, a) && Quiet(a)
    ensures Next(s, a).events == s.events
  {}

  lemma PersistCountsNothing(s: Sys, c: nat, doc: RequestDoc)
    ensures ReadyAccepted(PersistStep(s, c, doc).events) == ReadyAccepted(s.events)
  {
    if PersistUpdate(s.row, doc).Some? {
      ReadyAcceptedLog(s.events, PreemptionRequested(doc));
      assert PersistStep(s, c, doc).events == s.events + [PreemptionRequested(doc)];
    }
  }

  lemma RestoreCountsNothing(s: Sys, c: nat)
    requires c in s.coords && s.coords[c].Unpublished?
    ensures ReadyAccepted(RestoreStep(s, c).events) == ReadyAccepted(s.events)
  {
    var doc := s.coords[c].doc;
    ReadyAcceptedLog(s.events, RequestFailed(doc.request, ResumeUpdate(s.row, doc).Some?));
  }

  lemma AcceptFailureCountsNothing(s: Sys, c: nat)
    requires c in s.coords && s.coords[c].FailureRead?
    ensures ReadyAccepted(AcceptFailureStep(s, c).events) == ReadyAccepted(s.events)
  {
    ReadyAcceptedLog(s.events, YieldFailed(s.coords[c].receipt));
  }

  lemma IsolateCountsNothing(s: Sys, c: nat)
    ensures ReadyAccepted(IsolateStep(s, c).events) == ReadyAccepted(s.events)
  {
    if s.row.state.Yielding? {
      ReadyAcceptedLog(s.events, Isolated(s.row.segment));
      assert IsolateStep(s, c).events == s.events + [Isolated(s.row.segment)];
    } else {
      assert IsolateStep(s, c).events == s.events;
    }
  }

  lemma RequeueCountsOne(s: Sys, c: nat, at: string, e: Evidence)
    requires c in s.coords && s.coords[c].ReadyRead?
    ensures ReadyAccepted(RequeueStep(s, c, at, e).events)
         == ReadyAccepted(s.events) + if RequeueUpdate(s.row, s.coords[c].doc, at, e).Some? then 1 else 0
  {
    var k := s.coords[c];
    ReadyAcceptedLog(s.events, Requeued(k.doc.request, k.receipt, k.doc.segment));
  }

  lemma StepCountsReady(s: Sys, a: Action)
    requires Enabled(s, a)
    ensures ReadyAccepted(Next(s, a).events) == ReadyAccepted(s.events) + if AcceptsReady(s, a) then 1 else 0
  {
    match a
    case Persist(c, doc) => PersistCountsNothing(s, c, doc);
    case Restore(c) => RestoreCountsNothing(s, c);
    case AcceptFailure(c) => AcceptFailureCountsNothing(s, c);
    case Isolate(c) => IsolateCountsNothing(s, c);
    case Requeue(c, at, e) => RequeueCountsOne(s, c, at, e);
    case _ => QuietStepLogsNothing(s, a);
  }

  /** The segment rises by exactly one for each accepted ready receipt, and by nothing else. */
  lemma {:induction false} SegmentCountsReadyReceipts(s0: Sys, acts: seq<Action>, s: Sys)
    requires Reaches(s0, acts, s)
    ensures s.row.segment == s0.row.segment + ReadyAccepted(s.events)
    decreases |acts|
  {
    if acts != [] {
      var mid := Exec(s0, acts[..|acts| - 1]).value;
      RunKeepsInv(s0, acts[..|acts| - 1], mid);
      SegmentCountsReadyReceipts(s0, acts[..|acts| - 1], mid);
      StepMovesSegment(mid, acts[|acts| - 1]);
      StepCountsReady(mid, acts[|acts| - 1]);
    }
  }

  /** A ready receipt is accepted only for the very request the row is still yielding on, and it is
      the project's answer to that request. */
  lemma RequeueNeedsTheOwnRequest(s0: Sys, acts: seq<Action>, s: Sys, a: Action)
    requires Reaches(s0, acts, s) && Enabled(s, a) && AcceptsReady(s, a)
    ensures var ReadyRead(doc, receipt) := s.coords[a.c];
            && s.row.state.Yielding? && s.row.leaseHeld
            && Rebuild(s.row) == Some(doc)
            && doc.request in s.answered && s.answered[doc.request] == receipt && receipt.request == doc.request
  {
    RunKeepsInv(s0, acts, s);
    assert CoordOk(s, s.coords[a.c]);
  }

  // ---------------------------------------------------------------- termination wins

  lemma StepKeepsDoom(s: Sys, a: Action)
    requires Inv(s) && Enabled(s, a) && Doomed(s.row.state)
    ensures Doomed(Next(s, a).row.state) && !AcceptsReady(s, a)
  {
    if a.Outside? {
      SchedulerUpdatesKeepChecks(s.row, a.change);
    }
  }

  /** Once a termination (or any other end) is recorded, no receipt, restore, recovery or restart ever
      brings the item back or moves it to another segment. */
  lemma {:induction false} TerminationIsNeverUndone(s0: Sys, acts: seq<Action>, s: Sys, more: seq<Action>, t: Sys)
    requires Reaches(s0, acts, s) && Exec(s, more) == Some(t) && Doomed(s.row.state)
    ensures Inv(t) && Doomed(t.row.state) && t.row.segment == s.row.segment
    ensures ReadyAccepted(t.events) == ReadyAccepted(s.events)
    decreases |more|
  {
    RunKeepsInv(s0, acts, s);
    if more != [] {
      var mid := Exec(s, more[..|more| - 1]).value;
      TerminationIsNeverUndone(s0, acts, s, more[..|more| - 1], mid);
      StepKeepsInv(mid, more[|more| - 1]);
      StepMovesSegment(mid, more[|more| - 1]);
      StepCountsReady(mid, more[|more| - 1]);
      StepKeepsDoom(mid, more[|more| - 1]);
    }
  }

  // ---------------------------------------------------------------- deleted evidence

  /** Every receipt a coordinator deletes is in a committed failure event - in every run, with any
      crashes, in which no request was persisted over a hazard. */
  lemma DeletedReceiptsAreRecorded(s0: Sys, acts: seq<Action>, s: Sys, k: nat)
    requires Reaches(s0, acts, s) && !s.overlapped && k < |s.deleted|
    ensures YieldFailed(s.deleted[k]) in s.events
  {
    RunKeepsInv(s0, acts, s);
    assert Recorded(s, s.deleted[k]);
  }

  /** With such an overlap evidence can be lost: a coordinator that committed the failure of request
      A unlinks the receipt of request B, which another coordinator asked for in between. */
  lemma OverlapCanLoseEvidence(a: RequestDoc, b: RequestDoc, ra: Receipt, rb: Receipt)
    requires a.request != b.request && a.segment == 1 == b.segment && a.gpu == b.gpu
    requires ra.request == a.request && ra.valid && !ra.ready && rb.request == b.request
    ensures exists s0, acts, s :: Reaches(s0, acts, s) && rb in s.deleted && YieldFailed(rb) !in s.events
  {
    var s0, acts := CommittedRun(a, ra, a.gpu);
    acts := SecondRequestRun(a, b, ra, s0, acts);
    var s := AskedAgain(a, b, ra, a.gpu);
    var t := s.(requests := map[1 := b], coords := s.coords[2 := Holding(b)]);
    ExtendRun(s0, acts, s, Publish(2, true, true), t);
    acts := acts + [Publish(2, true, true)];
    var u := t.(receipts := map[1 := rb], answered := map[a.request := ra, b.request := rb]);
    ExtendRun(s0, acts, t, Answer(1, rb), u);
    acts := acts + [Answer(1, rb)];
    var v := u.(receipts := map[], deleted := [ra, rb], coords := u.coords[1 := Finished]);
    ExtendRun(s0, acts, u, Unlink(1, true, true), v);
    acts := acts + [Unlink(1, true, true)];
    assert Reaches(s0, acts, v);
  }

  /** A request persisted over a hazard, whichever it is, can go on to lose its answer, with no further
      request needed. */
  lemma HazardLosesEvidence(s0: Sys, acts: seq<Action>, s: Sys, c: nat, doc: RequestDoc, answer: Receipt)
    returns (more: seq<Action>, t: Sys)
    requires Reaches(s0, acts, s) && Enabled(s, Persist(c, doc)) && PersistUpdate(s.row, doc).Some?
    requires Hazard(s, c, doc) && answer.request == doc.request
    ensures NoPersist(more) && Exec(PersistStep(s, c, doc), more) == Some(t)
    ensures answer in t.deleted && YieldFailed(answer) !in t.events
  {
    assert !Recorded(s, answer) && doc.request !in s.answered by { RunKeepsInv(s0, acts, s); }
    var asked := PersistStep(s, c, doc);
    assert asked.coords == s.coords[c := Persisted(doc)] && asked.answered == s.answered && asked.receipts == s.receipts;
    assert asked.events == s.events + [PreemptionRequested(doc)];
    LastFailureLog(s.events, PreemptionRequested(doc));
    if doc.segment in s.receipts && LastFailure(s.events) == Some(s.receipts[doc.segment]) {
      RunKeepsPreemptible(s0, acts, s);
      more, t := LeftoverRun(asked, c, doc, answer);
    } else {
      var d :| d in s.coords && d != c && Endangers(s, s.coords[d], doc.segment);
      more, t := OtherRun(asked, c, d, doc, answer);
    }
  }

  predicate NoPersist(acts: seq<Action>) {
    forall i | 0 <= i < |acts| :: !acts[i].Persist?
  }

  /** Another coordinator is on its way to unlinking: publish, let the project answer, let it go on. */
  lemma OtherRun(s: Sys, c: nat, d: nat, doc: RequestDoc, answer: Receipt) returns (more: seq<Action>, t: Sys)
    requires c in s.coords && s.coords[c] == Persisted(doc) && d in s.coords && d != c && Endangers(s, s.coords[d], doc.segment)
    requires answer.request == doc.request && doc.request !in s.answered
    ensures NoPersist(more) && Exec(s, more) == Some(t) && answer in t.deleted && t.events == s.events
  {
    var published := PublishStep(s, c, true, true);
    ExtendRun(s, [], s, Publish(c, true, true), published);
    more := [] + [Publish(c, true, true)];
    var ready := published;
    assert published.coords[d] == s.coords[d] && published.events == s.events && published.answered == s.answered;
    if s.coords[d].StaleRead? {
      ready := AuthenticateStep(published, d);
      ExtendRun(s, more, published, Authenticate(d), ready);
      more := more + [Authenticate(d)];
    }
    assert Unlinking(ready.coords[d], doc.segment) && ready.requests[doc.segment] == doc && ready.events == s.events;
    more, t := LossRun(s, more, ready, d, doc, answer);
  }

  /** The last recorded receipt is still there: publish with an error, withdraw, let a new coordinator
      authenticate the leftover, let the project answer the published request, let the coordinator go on. */
  lemma LeftoverRun(s: Sys, c: nat, doc: RequestDoc, answer: Receipt) returns (more: seq<Action>, t: Sys)
    requires c in s.coords && s.coords[c] == Persisted(doc) && doc.segment in s.receipts
    requires LastFailure(s.events) == Some(s.receipts[doc.segment]) && s.row.preemptible
    requires ResumeUpdate(s.row, doc).Some? && answer.request == doc.request && doc.request !in s.answered
    ensures NoPersist(more) && Exec(s, more) == Some(t) && answer in t.deleted
    ensures t.events == s.events + [RequestFailed(doc.request, true)]
  {
    var d := FreshCoordinator(s.coords.Keys);
    var h, withdrawn := WithdrawnRun(s, c, doc);
    LastFailureLog(s.events, RequestFailed(doc.request, true));
    var h', ready := DiscardingRun(s, h, withdrawn, d, doc.segment);
    more, t := LossRun(s, h', ready, d, doc, answer);
  }

  lemma WithdrawnRun(s: Sys, c: nat, doc: RequestDoc) returns (h: seq<Action>, t: Sys)
    requires c in s.coords && s.coords[c] == Persisted(doc) && ResumeUpdate(s.row, doc).Some?
    ensures NoPersist(h) && Exec(s, h) == Some(t) && t.events == s.events + [RequestFailed(doc.request, true)]
    ensures t.row == ResumeUpdate(s.row, doc).value && t.coords.Keys == s.coords.Keys && t.receipts == s.receipts
    ensures t.answered == s.answered && doc.segment in t.requests && t.requests[doc.segment] == doc
  {
    var failed := PublishStep(s, c, false, true);
    ExtendRun(s, [], s, Publish(c, false, true), failed);
    assert failed.coords == s.coords[c := Unpublished(doc)] && failed.row == s.row && failed.events == s.events;
    t := RestoreStep(failed, c);
    h := [] + [Publish(c, false, true)];
    ExtendRun(s, h, failed, Restore(c), t);
    h := h + [Restore(c)];
  }

  lemma DiscardingRun(s: Sys, h: seq<Action>, mid: Sys, d: nat, segment: nat) returns (more: seq<Action>, t: Sys)
    requires NoPersist(h) && Exec(s, h) == Some(mid) && d !in mid.coords
    requires mid.row.state.Running? && mid.row.preemptible && mid.row.segment == segment
    requires segment in mid.receipts && LastFailure(mid.events) == Some(mid.receipts[segment])
    ensures NoPersist(more) && Exec(s, more) == Some(t) && d in t.coords && Unlinking(t.coords[d], segment)
    ensures t.events == mid.events && t.requests == mid.requests && t.answered == mid.answered
  {
    var begun := Put(mid, d, Began(segment));
    ExtendRun(s, h, mid, Begin(d), begun);
    more := h + [Begin(d)];
    var looked := LookStep(begun, d);
    ExtendRun(s, more, begun, Look(d), looked);
    more := more + [Look(d)];
    t := AuthenticateStep(looked, d);
    ExtendRun(s, more, looked, Authenticate(d), t);
    more := more + [Authenticate(d)];
  }

  /** ... answered, and the answer is unlinked. */
  lemma LossRun(s: Sys, h: seq<Action>, mid: Sys, d: nat, doc: RequestDoc, answer: Receipt) returns (more: seq<Action>, t: Sys)
    requires NoPersist(h) && Exec(s, h) == Some(mid) && d in mid.coords && Unlinking(mid.coords[d], doc.segment)
    requires doc.segment in mid.requests && mid.requests[doc.segment] == doc
    requires answer.request == doc.request && doc.request !in mid.answered
    ensures NoPersist(more) && Exec(s, more) == Some(t) && answer in t.deleted && t.events == mid.events
  {
    var u := Next(mid, Answer(doc.segment, answer));
    ExtendRun(s, h, mid, Answer(doc.segment, answer), u);
    t := UnlinkStep(u, d, true, true);
    UnlinkDeletes(u, d, doc.segment);
    ExtendRun(s, h + [Answer(doc.segment, answer)], u, Unlink(d, true, true), t);
    more := h + [Answer(doc.segment, answer)] + [Unlink(d, true, true)];
  }

  lemma {:induction false} FreshCoordinator(ids: set<nat>) returns (d: nat)
    ensures forall i <- ids :: i < d
    decreases |ids|
  {
    if ids == {} {
      d := 0;
    } else {
      var i :| i in ids;
      var e := FreshCoordinator(ids - {i});
      d := if e <= i then i + 1 else e;
      assert forall j <- ids :: j == i || j in ids - {i};
    }
  }

  lemma {:induction false} RunKeepsPreemptible(s0: Sys, acts: seq<Action>, s: Sys)
    requires Reaches(s0, acts, s)
    ensures s.coords != map[] ==> s.row.preemptible
    decreases |acts|
  {
    if acts != [] {
      var mid := Exec(s0, acts[..|acts| - 1]).value;
      RunKeepsPreemptible(s0, acts[..|acts| - 1], mid);
      StepKeepsPreemptible(mid, acts[|acts| - 1]);
    }
  }

  lemma StepKeepsPreemptible(s: Sys, a: Action)
    requires Enabled(s, a) && (s.coords != map[] ==> s.row.preemptible)
    ensures Next(s, a).coords != map[] ==> Next(s, a).row.preemptible
  {
    match a
    case Persist(c, doc) => assert c in s.coords;
    case Restore(c) => assert c in s.coords;
    case AcceptFailure(c) => assert c in s.coords;
    case Requeue(c, at, e) => assert c in s.coords;
    case Isolate(c) => assert c in s.coords;
    case _ =>
  }

  lemma AcceptFailureKeepsOverlap(s: Sys, c: nat)
    requires c in s.coords && s.coords[c].FailureRead?
    ensures AcceptFailureStep(s, c).overlapped == s.overlapped
  {
    var k := s.coords[c];
    if ResumeUpdate(s.row, k.doc).Some? {
      assert AcceptFailureStep(s, c) == Put(Log(s, YieldFailed(k.receipt)), c, FailureCommitted(k.doc, k.receipt)).(row := ResumeUpdate(s.row, k.doc).value);
    }
  }

  lemma RequeueKeepsOverlap(s: Sys, c: nat, at: string, e: Evidence)
    requires c in s.coords && s.coords[c].ReadyRead?
    ensures RequeueStep(s, c, at, e).overlapped == s.overlapped
  {
    var k := s.coords[c];
    if RequeueUpdate(s.row, k.doc, at, e).Some? {
      assert RequeueStep(s, c, at, e)
          == Put(Log(s, Requeued(k.doc.request, k.receipt, k.doc.segment)), c, Finished).(row := RequeueUpdate(s.row, k.doc, at, e).value);
    }
  }

  lemma IsolateKeepsOverlap(s: Sys, c: nat)
    ensures IsolateStep(s, c).overlapped == s.overlapped
  {
    if s.row.state.Yielding? {
      assert IsolateUpdate(s.row).Some?;
    }
  }

  lemma OtherKeepsOverlap(s: Sys, a: Action)
    requires Enabled(s, a) && Quiet(a)
    ensures Next(s, a).overlapped == s.overlapped
  {}

  lemma StepKeepsOverlap(s: Sys, a: Action)
    requires Enabled(s, a) && !a.Persist?
    ensures Next(s, a).overlapped == s.overlapped
  {
    match a
    case AcceptFailure(c) => AcceptFailureKeepsOverlap(s, c);
    case Requeue(c, at, e) => RequeueKeepsOverlap(s, c, at, e);
    case Isolate(c) => IsolateKeepsOverlap(s, c);
    case Restore(c) =>
    case _ => OtherKeepsOverlap(s, a);
  }

  lemma {:induction false} NoPersistNoOverlap(s: Sys, more: seq<Action>, t: Sys)
    requires NoPersist(more) && Exec(s, more) == Some(t)
    ensures t.overlapped == s.overlapped
    decreases |more|
  {
    if more != [] {
      var mid := Exec(s, more[..|more| - 1]).value;
      NoPersistNoOverlap(s, more[..|more| - 1], mid);
      StepKeepsOverlap(mid, more[|more| - 1]);
    }
  }

  lemma {:induction false} ExecConcat(s0: Sys, acts: seq<Action>, s: Sys, more: seq<Action>, t: Sys)
    requires Exec(s0, acts) == Some(s) && Exec(s, more) == Some(t)
    ensures Exec(s0, acts + more) == Some(t)
    decreases |more|
  {
    if more == [] {
      assert acts + more == acts;
    } else {
      ExecConcat(s0, acts, s, more[..|more| - 1], Exec(s, more[..|more| - 1]).value);
      assert (acts + more)[..|acts + more| - 1] == acts + more[..|more| - 1];
    }
  }

  ghost predicate Loses(t: Sys) {
    exists k :: 0 <= k < |t.deleted| && YieldFailed(t.deleted[k]) !in t.events
  }

  /** The exact condition: with everything before in order, a request that is persisted can be followed, without
      another request, by the loss of evidence if and only if it is persisted over a hazard. */
  lemma EvidenceIsAtRiskIffHazard(s0: Sys, acts: seq<Action>, s: Sys, c: nat, doc: RequestDoc)
    requires Reaches(s0, acts, s) && !s.overlapped && Enabled(s, Persist(c, doc)) && PersistUpdate(s.row, doc).Some?
    ensures Hazard(s, c, doc) <==> exists more, t :: NoPersist(more) && Exec(PersistStep(s, c, doc), more) == Some(t) && Loses(t)
  {
    var asked := PersistStep(s, c, doc);
    if Hazard(s, c, doc) {
      var answer := Receipt(doc.request, false, true, []);
      var more, t := HazardLosesEvidence(s0, acts, s, c, doc, answer);
      var k :| 0 <= k < |t.deleted| && t.deleted[k] == answer;
      assert Loses(t);
    } else if more, t :| NoPersist(more) && Exec(asked, more) == Some(t) && Loses(t) {
      NoPersistNoOverlap(asked, more, t);
      ExtendRun(s0, acts, s, Persist(c, doc), asked);
      ExecConcat(s0, acts + [Persist(c, doc)], asked, more, t);
      var k :| 0 <= k < |t.deleted| && YieldFailed(t.deleted[k]) !in t.events;
      DeletedReceiptsAreRecorded(s0, acts + [Persist(c, doc)] + more, t, k);
    }
  }

  lemma UnlinkDeletes(s: Sys, d: nat, segment: nat)
    requires d in s.coords && Unlinking(s.coords[d], segment) && segment in s.receipts
    ensures UnlinkStep(s, d, true, true).deleted == s.deleted + [s.receipts[segment]] && UnlinkStep(s, d, true, true).events == s.events
  {}

  /** The start of the run above: an item running on one GPU. */
  function Fresh(gpu: string): Sys {
    Sys(Row(Running, 1, true, true, None, Some(gpu), Some("0"), Some(1), Some(1), None, None, None, None, None,
            None, None, None, None),
        [], map[], map[], map[], map[], map[], map[], [], false)
  }

  function Asked(a: RequestDoc, gpu: string): Sys {
    var s := Fresh(gpu);
    s.(row := PersistUpdate(s.row, a).GetOr(s.row), events := [PreemptionRequested(a)], coords := map[1 := Persisted(a)],
       asked := map[a.request := a], latest := map[1 := a.request])
  }

  function Committed(a: RequestDoc, ra: Receipt, gpu: string): Sys {
    var s := Asked(a, gpu);
    s.(row := Fresh(gpu).row, events := [PreemptionRequested(a), YieldFailed(ra)], coords := map[1 := FailureCommitted(a, ra)],
       requests := map[1 := a], receipts := map[1 := ra], answered := map[a.request := ra])
  }

  function AskedAgain(a: RequestDoc, b: RequestDoc, ra: Receipt, gpu: string): Sys {
    var s := Committed(a, ra, gpu);
    s.(row := PersistUpdate(s.row, b).GetOr(s.row),
       events := [PreemptionRequested(a), YieldFailed(ra), PreemptionRequested(b)],
       coords := map[1 := FailureCommitted(a, ra), 2 := Persisted(b)], receipts := map[],
       asked := map[a.request := a, b.request := b], latest := map[1 := b.request], deleted := [ra], overlapped := true)
  }

  lemma AskedRun(a: RequestDoc, gpu: string) returns (s0: Sys, acts: seq<Action>)
    requires a.segment == 1 && a.gpu == gpu
    ensures Initial(s0) && Exec(s0, acts) == Some(Asked(a, gpu))
  {
    s0, acts := Fresh(gpu), [];
    var s1 := s0.(coords := map[1 := Began(1)]);
    ExtendRun(s0, acts, s0, Begin(1), s1);
    acts := acts + [Begin(1)];
    var s2 := s0.(coords := map[1 := Cleared(1)]);
    ExtendRun(s0, acts, s1, Look(1), s2);
    acts := acts + [Look(1)];
    ExtendRun(s0, acts, s2, Persist(1, a), Asked(a, gpu));
    acts := acts + [Persist(1, a)];
  }

  lemma CommittedRun(a: RequestDoc, ra: Receipt, gpu: string) returns (s0: Sys, acts: seq<Action>)
    requires a.segment == 1 && a.gpu == gpu && ra.request == a.request && ra.valid && !ra.ready
    ensures Initial(s0) && Exec(s0, acts) == Some(Committed(a, ra, gpu))
  {
    s0, acts := AskedRun(a, gpu);
    var s := Asked(a, gpu);
    var s1 := s.(requests := map[1 := a], coords := map[1 := Holding(a)]);
    ExtendRun(s0, acts, s, Publish(1, true, true), s1);
    acts := acts + [Publish(1, true, true)];
    var s2 := s1.(receipts := map[1 := ra], answered := map[a.request := ra]);
    ExtendRun(s0, acts, s1, Answer(1, ra), s2);
    acts := acts + [Answer(1, ra)];
    var s3 := s2.(coords := map[1 := FailureRead(a, ra)]);
    ExtendRun(s0, acts, s2, ReadReceipt(1), s3);
    acts := acts + [ReadReceipt(1)];
    ExtendRun(s0, acts, s3, AcceptFailure(1), Committed(a, ra, gpu));
    acts := acts + [AcceptFailure(1)];
  }

  lemma SecondRequestRun(a: RequestDoc, b: RequestDoc, ra: Receipt, s0: Sys, before: seq<Action>) returns (acts: seq<Action>)
    requires a.request != b.request && a.segment == 1 == b.segment && a.gpu == b.gpu
    requires Exec(s0, before) == Some(Committed(a, ra, a.gpu))
    ensures Exec(s0, acts) == Some(AskedAgain(a, b, ra, a.gpu))
  {
    acts := before;
    var s := Committed(a, ra, a.gpu);
    var s1 := s.(coords := s.coords[2 := Began(1)]);
    ExtendRun(s0, acts, s, Begin(2), s1);
    acts := acts + [Begin(2)];
    var s2 := s.(coords := s.coords[2 := StaleRead(1, ra)]);
    ExtendRun(s0, acts, s1, Look(2), s2);
    acts := acts + [Look(2)];
    var s3 := s.(coords := s.coords[2 := Discarding(1, ra)]);
    ExtendRun(s0, acts, s2, Authenticate(2), s3);
    acts := acts + [Authenticate(2)];
    acts := ClearAndAskAgain(a, b, ra, s0, acts);
  }

  function ClearedAgain(a: RequestDoc, ra: Receipt): Sys {
    var s := Committed(a, ra, a.gpu);
    s.(coords := map[1 := FailureCommitted(a, ra), 2 := Cleared(1)], receipts := map[], deleted := [ra])
  }

  lemma ClearAndAskAgain(a: RequestDoc, b: RequestDoc, ra: Receipt, s0: Sys, before: seq<Action>) returns (acts: seq<Action>)
    requires a.request != b.request && a.segment == 1 == b.segment && a.gpu == b.gpu
    requires var s := Committed(a, ra, a.gpu); Exec(s0, before) == Some(s.(coords := s.coords[2 := Discarding(1, ra)]))
    ensures Exec(s0, acts) == Some(AskedAgain(a, b, ra, a.gpu))
  {
    var s := Committed(a, ra, a.gpu);
    ExtendRun(s0, before, s.(coords := s.coords[2 := Discarding(1, ra)]), Unlink(2, true, true), ClearedAgain(a, ra));
    AskingAgainOverlaps(a, b, ra);
    acts := before + [Unlink(2, true, true)];
    ExtendRun(s0, acts, ClearedAgain(a, ra), Persist(2, b), AskedAgain(a, b, ra, a.gpu));
    acts := acts + [Persist(2, b)];
  }

  lemma AskingAgainOverlaps(a: RequestDoc, b: RequestDoc, ra: Receipt)
    requires a.request != b.request && a.segment == 1 == b.segment && a.gpu == b.gpu
    ensures Enabled(ClearedAgain(a, ra), Persist(2, b))
    ensures SameSys(Next(ClearedAgain(a, ra), Persist(2, b)), AskedAgain(a, b, ra, a.gpu))
  {
    ClearedIsHazardous(a, b, ra);
  }

  lemma ClearedIsHazardous(a: RequestDoc, b: RequestDoc, ra: Receipt)
    requires a.segment == 1 == b.segment
    ensures Hazard(ClearedAgain(a, ra), 2, b)
  {
    assert Endangers(ClearedAgain(a, ra), ClearedAgain(a, ra).coords[1], 1);
  }

  predicate SameSys(s: Sys, t: Sys) {
    && s.row == t.row && s.events == t.events && s.coords == t.coords && s.requests == t.requests && s.receipts == t.receipts
    && s.asked == t.asked && s.latest == t.latest && s.answered == t.answered && s.deleted == t.deleted
    && s.overlapped == t.overlapped
  }

  lemma ExtendRun(s0: Sys, acts: seq<Action>, s: Sys, a: Action, t: Sys)
    requires Exec(s0, acts) == Some(s) && Enabled(s, a) && SameSys(Next(s, a), t)
    ensures Exec(s0, acts + [a]) == Some(t)
  {
    assert (acts + [a])[..|acts|] == acts;
  }

  /** A leftover receipt that no failure event records is never cleared: the new request is refused. */
  lemma UnrecordedReceiptRefusesRequest(s: Sys, c: nat)
    requires Enabled(s, Authenticate(c)) && YieldFailed(s.coords[c].receipt) !in s.events
    ensures Next(s, Authenticate(c)).coords[c] == Finished
  {
    if LastFailure(s.events).Some? {
      LastFailureIsRecorded(s, s.events);
    }
  }

  // ---------------------------------------------------------------- recovery

  /** Whatever restart recovery rebuilds from the row is exactly the request that was persisted, and
      every coordinator that holds this request holds the same one. */
  lemma RecoveryRebuildsTheRequest(s0: Sys, acts: seq<Action>, s: Sys, c: nat)
    requires Reaches(s0, acts, s) && Enabled(s, Recover(c))
    ensures var doc := Next(s, Recover(c)).coords[c].doc;
            && s.row.askId == Some(doc.request) && doc.request in s.asked && doc == s.asked[doc.request]
            && forall d :: d in s.coords && s.coords[d].Holding? && s.coords[d].doc.request == doc.request ==>
                 s.coords[d].doc == doc
  {
    RunKeepsInv(s0, acts, s);
    forall d | d in s.coords && s.coords[d].Holding?
      ensures Known(s, s.coords[d].doc)
    {
      assert CoordOk(s, s.coords[d]);
    }
  }
}
