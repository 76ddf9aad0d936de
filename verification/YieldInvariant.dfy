/**
 What every step of the yield protocol keeps.
 */
module YieldInvariant {
  import opened FileSystem
  import opened Yield

  /** The item is on its way out, or gone: no yield may bring it back. */
  predicate Doomed(s: State) {
    s in {Terminating, ForceKilling, Succeeded, Failed, Interrupted, ForceKilled, Removed}
  }

  predicate YieldingAt(r: Row, segment: nat) {
    r.state.Yielding? && r.segment == segment
  }

  // ---------------------------------------------------------------- single updates

  /** No guarded update of a coordinator violates a CHECK, moves the segment back, or touches an
      item that is no longer yielding (or running, for a new request). */
  lemma CoordinatorUpdatesKeepChecks(r: Row, doc: RequestDoc, at: string, e: Evidence)
    requires Checks(r)
    ensures PersistUpdate(r, doc).Some? ==> Checks(PersistUpdate(r, doc).value)
    ensures ResumeUpdate(r, doc).Some? ==> Checks(ResumeUpdate(r, doc).value)
    ensures RequeueUpdate(r, doc, at, e).Some? ==> Checks(RequeueUpdate(r, doc, at, e).value)
    ensures IsolateUpdate(r).Some? ==> Checks(IsolateUpdate(r).value)
  {}

  lemma SchedulerUpdatesKeepChecks(r: Row, c: Change)
    requires Checks(r) && ChangeUpdate(r, c).Some?
    ensures var r' := ChangeUpdate(r, c).value;
            && Checks(r') && r'.segment == r.segment
            && !r'.state.Yielding? && (Doomed(r.state) ==> Doomed(r'.state))
            && (r.state.Yielding? ==> Doomed(r'.state))
  {}

  // ---------------------------------------------------------------- the invariant

  predicate Recorded(s: Sys, receipt: Receipt) {
    YieldFailed(receipt) in s.events
  }

  /** The receipt is the project's answer to a request of that segment. */
  predicate AnswerOf(s: Sys, receipt: Receipt, segment: nat) {
    && receipt.request in s.answered && s.answered[receipt.request] == receipt
    && receipt.request in s.asked && s.asked[receipt.request].segment == segment
  }

  predicate Known(s: Sys, doc: RequestDoc) {
    doc.request in s.asked && s.asked[doc.request] == doc
  }

  /** No answer to a request of this segment is outstanding. */
  predicate Settled(s: Sys, segment: nat) {
    segment in s.latest && s.latest[segment] in s.answered
  }

  predicate Untouched(s: Sys, segment: nat, receipt: Receipt) {
    segment in s.receipts ==> s.receipts[segment] == receipt
  }

  predicate IsPublished(s: Sys, doc: RequestDoc) {
    doc.segment in s.requests && s.requests[doc.segment].request == doc.request
  }

  predicate CoordOk(s: Sys, k: Coord) {
    match k
    case Began(_) => true
    case StaleRead(segment, receipt) =>
      && AnswerOf(s, receipt, segment)
      && (s.overlapped || LastFailure(s.events) != Some(receipt) || (Untouched(s, segment, receipt) && Settled(s, segment)))
    case Discarding(segment, receipt) =>
      && AnswerOf(s, receipt, segment) && Recorded(s, receipt)
      && (s.overlapped || (Untouched(s, segment, receipt) && Settled(s, segment)))
    case Cleared(_) => true
    case Persisted(doc) =>
      && Known(s, doc) && doc.segment in s.latest && s.latest[doc.segment] == doc.request
      && doc.request !in s.answered && !IsPublished(s, doc)
      && (Doomed(s.row.state) || (YieldingAt(s.row, doc.segment) && s.row.askId == Some(doc.request)))
    case Unpublished(doc) => Known(s, doc)
    case Recovering(doc) => Known(s, doc)
    case Holding(doc) => Known(s, doc)
    case FailureRead(doc, receipt) => Known(s, doc) && receipt.request == doc.request && AnswerOf(s, receipt, doc.segment)
    case FailureCommitted(doc, receipt) =>
      && Known(s, doc) && receipt.request == doc.request && AnswerOf(s, receipt, doc.segment) && Recorded(s, receipt)
      && (s.overlapped || (doc.segment in s.latest && s.latest[doc.segment] == doc.request))
    case ReadyRead(doc, receipt) => Known(s, doc) && receipt.request == doc.request && AnswerOf(s, receipt, doc.segment)
    case Rejected(doc) => Known(s, doc)
    case Finished => true
  }

  /** A yielding row carries the last request of its segment, field by field. */
  predicate RowOk(s: Sys) {
    && Checks(s.row)
    && (s.row.state.Yielding? ==>
          && s.row.askId.Some? && s.row.askId.value in s.asked
          && Rebuild(s.row) == Some(s.asked[s.row.askId.value])
          && s.row.segment in s.latest && s.latest[s.row.segment] == s.row.askId.value)
  }

  ghost predicate FilesOk(s: Sys) {
    && (forall id :: id in s.asked ==> s.asked[id].request == id)
    && (forall id :: id in s.answered ==> s.answered[id].request == id && id in s.asked)
    && (forall g :: g in s.latest ==> s.latest[g] in s.asked && s.asked[s.latest[g]].segment == g)
    && (forall g :: g in s.requests ==> Known(s, s.requests[g]) && s.requests[g].segment == g)
    && (forall g :: g in s.receipts ==> AnswerOf(s, s.receipts[g], g))
    && (forall r :: Recorded(s, r) ==> r.request in s.answered && s.answered[r.request] == r)
  }

  /** Once the last request of a segment is answered, its file and its answer stay in place. */
  ghost predicate LatestOk(s: Sys) {
    forall g :: Settled(s, g) ==>
      && g in s.requests && s.requests[g].request == s.latest[g]
      && (g in s.receipts ==> s.receipts[g].request == s.latest[g])
  }

  /** The receipt of the last recorded failure lies only where no answer is outstanding. */
  ghost predicate LeftoversOk(s: Sys) {
    s.overlapped || forall g :: g in s.receipts && LastFailure(s.events) == Some(s.receipts[g]) ==> Settled(s, g)
  }

  ghost predicate DeletedOk(s: Sys) {
    s.overlapped || forall k :: 0 <= k < |s.deleted| ==> Recorded(s, s.deleted[k])
  }

  ghost predicate CoordsOk(s: Sys) {
    && (forall c :: c in s.coords ==> CoordOk(s, s.coords[c]))
    && (forall c, d :: c in s.coords && d in s.coords && c != d && Publishing(s.coords[c]) && Publishing(s.coords[d])
                       ==> s.coords[c].doc.request != s.coords[d].doc.request)
  }

  /** The coordinator that persisted a request and has not finished publishing it. */
  predicate Publishing(k: Coord) {
    k.Persisted? || k.Unpublished?
  }

  ghost predicate Inv(s: Sys) {
    RowOk(s) && FilesOk(s) && LatestOk(s) && LeftoversOk(s) && DeletedOk(s) && CoordsOk(s)
  }

  // ---------------------------------------------------------------- one lemma per kind of step

  /** All of the invariant but the part about coordinators. */
  ghost predicate Shared(s: Sys) {
    RowOk(s) && FilesOk(s) && LatestOk(s) && LeftoversOk(s) && DeletedOk(s)
  }

  lemma MovingKeepsShared(s: Sys, coords: map<nat, Coord>)
    requires Shared(s)
    ensures Shared(s.(coords := coords))
  {
    var t := s.(coords := coords);
    assert forall r :: Recorded(t, r) <==> Recorded(s, r);
    assert forall g :: Settled(t, g) <==> Settled(s, g);
  }

  lemma CoordOkIgnoresCoords(s: Sys, coords: map<nat, Coord>, k: Coord)
    requires CoordOk(s, k)
    ensures CoordOk(s.(coords := coords), k)
  {}

  /** Steps that only move one coordinator along. */
  lemma LocalStepKeepsInv(s: Sys, c: nat, k: Coord)
    requires Inv(s) && CoordOk(s, k) && !Publishing(k)
    ensures Inv(Put(s, c, k))
  {
    var s' := Put(s, c, k);
    MovingKeepsShared(s, s'.coords);
    forall d | d in s'.coords
      ensures CoordOk(s', s'.coords[d])
    {
      assert CoordOk(s, s'.coords[d]);
      CoordOkIgnoresCoords(s, s'.coords, s'.coords[d]);
    }
  }

  lemma OutsideKeepsShared(s: Sys, row: Row)
    requires Shared(s) && Checks(row) && !row.state.Yielding?
    ensures Shared(s.(row := row))
  {
    var t := s.(row := row);
    assert forall r :: Recorded(t, r) <==> Recorded(s, r);
    assert forall g :: Settled(t, g) <==> Settled(s, g);
  }

  lemma OutsideKeepsCoord(s: Sys, row: Row, k: Coord)
    requires CoordOk(s, k) && !row.state.Yielding?
    requires (s.row.state.Yielding? || Doomed(s.row.state)) ==> Doomed(row.state)
    ensures CoordOk(s.(row := row), k)
  {}

  lemma OutsideKeepsInv(s: Sys, change: Change)
    requires Inv(s) && Enabled(s, Outside(change))
    ensures Inv(Next(s, Outside(change)))
  {
    var s' := Next(s, Outside(change));
    SchedulerUpdatesKeepChecks(s.row, change);
    OutsideKeepsShared(s, s'.row);
    forall d | d in s'.coords
      ensures CoordOk(s', s'.coords[d])
    {
      OutsideKeepsCoord(s, s'.row, s.coords[d]);
    }
  }

  lemma AnswerKeepsClearing(s: Sys, a: Action, k: Coord)
    requires Inv(s) && a.Answer? && Enabled(s, a) && CoordOk(s, k) && (k.StaleRead? || k.Discarding?)
    ensures CoordOk(Next(s, a), k)
  {}

  lemma AnswerKeepsCoord(s: Sys, a: Action, k: Coord)
    requires Inv(s) && a.Answer? && Enabled(s, a) && CoordOk(s, k)
    ensures CoordOk(Next(s, a), k)
  {
    if k.StaleRead? || k.Discarding? {
      AnswerKeepsClearing(s, a, k);
    }
  }

  lemma AnswerKeepsFiles(s: Sys, a: Action)
    requires FilesOk(s) && a.Answer? && Enabled(s, a)
    ensures FilesOk(Next(s, a))
  {
    var s' := Next(s, a);
    assert s'.asked == s.asked && s'.latest == s.latest && s'.requests == s.requests;
    forall r | Recorded(s', r) ensures r.request in s'.answered && s'.answered[r.request] == r {
      assert Recorded(s, r);
    }
    forall g | g in s'.receipts ensures AnswerOf(s', s'.receipts[g], g) {
      assert g != a.segment ==> AnswerOf(s, s.receipts[g], g);
    }
  }

  lemma AnswerKeepsHistory(s: Sys, a: Action)
    requires Shared(s) && a.Answer? && Enabled(s, a)
    ensures LatestOk(Next(s, a)) && LeftoversOk(Next(s, a)) && DeletedOk(Next(s, a))
  {
    var s' := Next(s, a);
    assert forall r :: Recorded(s', r) <==> Recorded(s, r);
    assert forall g :: Settled(s, g) ==> Settled(s', g);
    if LastFailure(s.events).Some? {
      LastFailureIsRecorded(s, s.events);
    }
    assert LastFailure(s.events) != Some(a.receipt);
  }

  lemma AnswerKeepsInv(s: Sys, a: Action)
    requires Inv(s) && a.Answer? && Enabled(s, a)
    ensures Inv(Next(s, a))
  {
    var s' := Next(s, a);
    AnswerKeepsFiles(s, a);
    AnswerKeepsHistory(s, a);
    assert RowOk(s');
    forall d | d in s'.coords
      ensures CoordOk(s', s'.coords[d])
    {
      AnswerKeepsCoord(s, a, s.coords[d]);
    }
  }

  lemma LastFailureLog(events: seq<Event>, e: Event)
    ensures LastFailure(events + [e]) == if e.YieldFailed? then Some(e.receipt) else LastFailure(events)
  {
    assert (events + [e])[..|events|] == events;
  }

  lemma LastFailureIsRecorded(s: Sys, events: seq<Event>)
    requires events <= s.events && LastFailure(events).Some?
    ensures Recorded(s, LastFailure(events).value)
  {
    if events[|events| - 1].YieldFailed? {
      assert s.events[|events| - 1] == YieldFailed(LastFailure(events).value);
    } else {
      LastFailureIsRecorded(s, events[..|events| - 1]);
    }
  }

  lemma ClearingStepKeepsInv(s: Sys, a: Action)
    requires Inv(s) && (a.Begin? || a.Look? || a.Authenticate?) && Enabled(s, a)
    ensures Inv(Next(s, a))
  {
    if a.Authenticate? && LastFailure(s.events).Some? {
      LastFailureIsRecorded(s, s.events);
    }
    if a.Authenticate? || a.Look? {
      assert CoordOk(s, s.coords[a.c]);
    }
    LocalStepKeepsInv(s, a.c, Next(s, a).coords[a.c]);
  }

  lemma RemovalKeepsShared(s: Sys, segment: nat)
    requires Shared(s) && segment in s.receipts && (s.overlapped || Recorded(s, s.receipts[segment]))
    ensures Shared(s.(receipts := s.receipts - {segment}, deleted := s.deleted + [s.receipts[segment]]))
  {
    var s' := s.(receipts := s.receipts - {segment}, deleted := s.deleted + [s.receipts[segment]]);
    assert forall r :: Recorded(s', r) <==> Recorded(s, r);
    assert forall g :: Settled(s', g) <==> Settled(s, g);
  }

  lemma RemovalKeepsCoord(s: Sys, segment: nat, k: Coord)
    requires CoordOk(s, k) && segment in s.receipts
    ensures CoordOk(s.(receipts := s.receipts - {segment}, deleted := s.deleted + [s.receipts[segment]]), k)
  {}

  /** A receipt disappears from its path. */
  lemma RemovalKeepsInv(s: Sys, segment: nat, c: nat)
    requires Inv(s) && segment in s.receipts
    requires s.overlapped || Recorded(s, s.receipts[segment])
    ensures Inv(s.(receipts := s.receipts - {segment}, deleted := s.deleted + [s.receipts[segment]]))
  {
    var s' := s.(receipts := s.receipts - {segment}, deleted := s.deleted + [s.receipts[segment]]);
    RemovalKeepsShared(s, segment);
    forall d | d in s'.coords
      ensures CoordOk(s', s'.coords[d])
    {
      RemovalKeepsCoord(s, segment, s.coords[d]);
    }
  }

  lemma UnlinkKeepsInv(s: Sys, a: Action)
    requires Inv(s) && a.Unlink? && Enabled(s, a)
    ensures Inv(Next(s, a))
  {
    var k := s.coords[a.c];
    assert CoordOk(s, k);
    var segment := if k.Discarding? then k.segment else k.doc.segment;
    var k' := if a.ok && k.Discarding? then Cleared(segment) else Finished;
    if (a.ok || a.effect) && segment in s.receipts {
      RemovalKeepsInv(s, segment, a.c);
      var t := s.(receipts := s.receipts - {segment}, deleted := s.deleted + [s.receipts[segment]]);
      LocalStepKeepsInv(t, a.c, k');
    } else {
      LocalStepKeepsInv(s, a.c, k');
    }
  }

  /** A request of one segment, asked and logged, does not disturb a coordinator that is not on its way to
      unlinking that segment's receipt - or the hazard is on record. */
  lemma AskingKeepsCoord(s: Sys, t: Sys, doc: RequestDoc, k: Coord)
    requires CoordOk(s, k) && !k.Persisted? && doc.request !in s.asked
    requires t.requests == s.requests && t.receipts == s.receipts && t.answered == s.answered
    requires t.asked == s.asked[doc.request := doc] && t.latest == s.latest[doc.segment := doc.request]
    requires forall r :: Recorded(t, r) <==> Recorded(s, r)
    requires LastFailure(t.events) == LastFailure(s.events)
    requires (s.overlapped ==> t.overlapped) && (Endangers(s, k, doc.segment) ==> t.overlapped)
    ensures CoordOk(t, k)
  {}

  lemma PersistKeepsCoord(s: Sys, a: Action, d: nat)
    requires Inv(s) && a.Persist? && Enabled(s, a) && PersistUpdate(s.row, a.doc).Some?
    requires d in s.coords && d != a.c
    ensures CoordOk(Next(s, a), s.coords[d])
  {
    var s' := Next(s, a);
    assert s' == PersistStep(s, a.c, a.doc);
    assert CoordOk(s, s.coords[d]);
    assert forall r :: Recorded(s', r) <==> Recorded(s, r);
    LastFailureLog(s.events, PreemptionRequested(a.doc));
    AskingKeepsCoord(s, s', a.doc, s.coords[d]);
  }

  lemma AskKeepsFiles(s: Sys, doc: RequestDoc)
    requires FilesOk(s) && doc.request !in s.asked
    ensures FilesOk(s.(asked := s.asked[doc.request := doc], latest := s.latest[doc.segment := doc.request]))
  {
    var s' := s.(asked := s.asked[doc.request := doc], latest := s.latest[doc.segment := doc.request]);
    assert forall r :: Recorded(s', r) <==> Recorded(s, r);
  }

  lemma PersistKeepsFiles(s: Sys, a: Action)
    requires Inv(s) && a.Persist? && Enabled(s, a) && PersistUpdate(s.row, a.doc).Some?
    ensures RowOk(Next(s, a)) && FilesOk(Next(s, a))
  {
    var t := s.(asked := s.asked[a.doc.request := a.doc], latest := s.latest[a.doc.segment := a.doc.request]);
    AskKeepsFiles(s, a.doc);
    var s' := Next(s, a);
    assert forall r :: Recorded(s', r) <==> Recorded(t, r);
    assert forall doc :: Known(s', doc) <==> Known(t, doc);
    assert forall r, g :: AnswerOf(s', r, g) <==> AnswerOf(t, r, g);
  }

  lemma PersistKeepsHistory(s: Sys, a: Action)
    requires Inv(s) && a.Persist? && Enabled(s, a) && PersistUpdate(s.row, a.doc).Some?
    ensures var s' := Next(s, a); LatestOk(s') && LeftoversOk(s') && DeletedOk(s')
  {
    var s' := Next(s, a);
    LastFailureLog(s.events, PreemptionRequested(a.doc));
    assert forall r :: Recorded(s', r) <==> Recorded(s, r);
    assert forall g :: g != a.doc.segment ==> (Settled(s', g) <==> Settled(s, g));
    assert !Settled(s', a.doc.segment);
  }

  lemma PersistKeepsInv(s: Sys, a: Action)
    requires Inv(s) && a.Persist? && Enabled(s, a)
    ensures Inv(Next(s, a))
  {
    if PersistUpdate(s.row, a.doc).None? {
      LocalStepKeepsInv(s, a.c, Finished);
    } else {
      PersistKeepsFiles(s, a);
      PersistKeepsHistory(s, a);
      PersistKeepsCoords(s, a);
    }
  }

  lemma PersistKeepsCoords(s: Sys, a: Action)
    requires Inv(s) && a.Persist? && Enabled(s, a) && PersistUpdate(s.row, a.doc).Some?
    requires CoordOk(Next(s, a), Persisted(a.doc))
    ensures CoordsOk(Next(s, a))
  {
    var s' := Next(s, a);
    assert s'.coords == s.coords[a.c := Persisted(a.doc)];
    forall d | d in s'.coords
      ensures CoordOk(s', s'.coords[d])
    {
      if d != a.c {
        PersistKeepsCoord(s, a, d);
      }
    }
    forall d | d in s.coords && Publishing(s.coords[d])
      ensures s.coords[d].doc.request != a.doc.request
    {
      assert CoordOk(s, s.coords[d]);
    }
  }

  /** The request file of a segment is replaced by its last, unanswered request. */
  lemma PublishKeepsCoord(s: Sys, doc: RequestDoc, k: Coord)
    requires Inv(s) && CoordOk(s, k) && CoordOk(s, Persisted(doc))
    requires k.Persisted? ==> k.doc.request != doc.request
    ensures CoordOk(s.(requests := s.requests[doc.segment := doc]), k)
  {}

  lemma PublishKeepsFiles(s: Sys, doc: RequestDoc)
    requires Inv(s) && CoordOk(s, Persisted(doc))
    ensures var s' := s.(requests := s.requests[doc.segment := doc]);
            RowOk(s') && FilesOk(s') && LatestOk(s') && LeftoversOk(s') && DeletedOk(s')
  {
    var s' := s.(requests := s.requests[doc.segment := doc]);
    assert forall r :: Recorded(s', r) <==> Recorded(s, r);
    assert forall g :: Settled(s', g) <==> Settled(s, g);
  }

  lemma PublishEffectKeepsInv(s: Sys, c: nat)
    requires Inv(s) && c in s.coords && s.coords[c].Persisted?
    ensures var doc := s.coords[c].doc;
            Inv(s.(requests := s.requests[doc.segment := doc], coords := s.coords - {c}))
  {
    var doc := s.coords[c].doc;
    var t := s.(requests := s.requests[doc.segment := doc]);
    assert CoordOk(s, s.coords[c]);
    PublishKeepsFiles(s, doc);
    var s' := t.(coords := s.coords - {c});
    MovingKeepsShared(t, s.coords - {c});
    forall d | d in s'.coords
      ensures CoordOk(s', s'.coords[d])
    {
      PublishKeepsCoord(s, doc, s.coords[d]);
      CoordOkIgnoresCoords(t, s'.coords, s.coords[d]);
    }
  }

  lemma UnpublishKeepsInv(s: Sys, c: nat, doc: RequestDoc)
    requires Inv(s) && Known(s, doc)
    requires forall d :: d in s.coords && d != c && Publishing(s.coords[d]) ==> s.coords[d].doc.request != doc.request
    ensures Inv(Put(s, c, Unpublished(doc)))
  {
    var s' := Put(s, c, Unpublished(doc));
    MovingKeepsShared(s, s'.coords);
    forall d | d in s'.coords
      ensures CoordOk(s', s'.coords[d])
    {
      assert CoordOk(s, s'.coords[d]);
      CoordOkIgnoresCoords(s, s'.coords, s'.coords[d]);
    }
  }

  lemma PublishKeepsInv(s: Sys, a: Action)
    requires Inv(s) && a.Publish? && Enabled(s, a)
    ensures Inv(Next(s, a))
  {
    var doc := s.coords[a.c].doc;
    assert CoordOk(s, s.coords[a.c]);
    var t := s;
    if a.ok || a.effect {
      PublishEffectKeepsInv(s, a.c);
      t := s.(requests := s.requests[doc.segment := doc], coords := s.coords - {a.c});
      assert (s.coords - {a.c})[a.c := Holding(doc)] == s.coords[a.c := Holding(doc)];
      assert (s.coords - {a.c})[a.c := Unpublished(doc)] == s.coords[a.c := Unpublished(doc)];
    }
    if a.ok {
      LocalStepKeepsInv(t, a.c, Holding(doc));
    } else {
      UnpublishKeepsInv(t, a.c, doc);
    }
  }

  /** The row goes back from yielding to running, or out of yielding for good. */
  lemma LeaveYieldingKeepsCoord(s: Sys, row: Row, k: Coord, c: nat)
    requires Inv(s) && CoordOk(s, k) && s.row.state.Yielding? && !row.state.Yielding?
    requires k.Persisted? ==> Doomed(row.state)
    ensures CoordOk(s.(row := row), k)
  {}

  lemma LeaveYieldingKeepsInv(s: Sys, row: Row)
    requires Inv(s) && s.row.state.Yielding? && !row.state.Yielding? && Checks(row)
    requires forall c :: c in s.coords && s.coords[c].Persisted? ==> Doomed(row.state)
    ensures Inv(s.(row := row))
  {
    var s' := s.(row := row);
    forall d | d in s'.coords
      ensures CoordOk(s', s'.coords[d])
    {
      LeaveYieldingKeepsCoord(s, row, s.coords[d], d);
    }
    assert forall r :: Recorded(s', r) <==> Recorded(s, r);
    assert forall g :: Settled(s', g) <==> Settled(s, g);
  }

  /** Appending an event that records no failure. */
  lemma LogKeepsShared(s: Sys, e: Event)
    requires Shared(s) && !e.YieldFailed?
    ensures Shared(Log(s, e))
  {
    var s' := Log(s, e);
    LastFailureLog(s.events, e);
    assert forall r :: Recorded(s', r) <==> Recorded(s, r);
    LogKeepsFiles(s, e);
    assert forall g :: Settled(s', g) <==> Settled(s, g);
  }

  lemma LogKeepsFiles(s: Sys, e: Event)
    requires FilesOk(s) && !e.YieldFailed?
    ensures FilesOk(Log(s, e))
  {
    assert forall r :: Recorded(Log(s, e), r) <==> Recorded(s, r);
  }

  lemma LogKeepsCoord(s: Sys, e: Event, k: Coord)
    requires CoordOk(s, k) && !e.YieldFailed?
    ensures CoordOk(Log(s, e), k)
  {
    LastFailureLog(s.events, e);
    assert forall r :: Recorded(Log(s, e), r) <==> Recorded(s, r);
  }

  lemma LogKeepsInv(s: Sys, e: Event)
    requires Inv(s) && !e.YieldFailed?
    ensures Inv(Log(s, e))
  {
    var s' := Log(s, e);
    LogKeepsShared(s, e);
    forall d | d in s'.coords
      ensures CoordOk(s', s'.coords[d])
    {
      LogKeepsCoord(s, e, s.coords[d]);
    }
  }

  /** Only the request in the row can still be waiting for its publication. */
  lemma PersistedIsInTheRow(s: Sys, c: nat)
    requires Inv(s) && c in s.coords && s.coords[c].Persisted? && s.row.state.Yielding?
    ensures s.row.askId == Some(s.coords[c].doc.request) && s.coords[c].doc.request !in s.answered
  {
    assert CoordOk(s, s.coords[c]);
  }

  lemma RestoreKeepsInv(s: Sys, a: Action)
    requires Inv(s) && a.Restore? && Enabled(s, a)
    ensures Inv(Next(s, a))
  {
    var doc := s.coords[a.c].doc;
    var updated := ResumeUpdate(s.row, doc);
    var t := s;
    if updated.Some? {
      forall d | d in s.coords && s.coords[d].Persisted?
        ensures false
      {
        PersistedIsInTheRow(s, d);
      }
      CoordinatorUpdatesKeepChecks(s.row, doc, "", Evidence("", "", "", ""));
      LeaveYieldingKeepsInv(s, updated.value);
      t := s.(row := updated.value);
    }
    LogKeepsInv(t, RequestFailed(doc.request, updated.Some?));
    LocalStepKeepsInv(Log(t, RequestFailed(doc.request, updated.Some?)), a.c, Finished);
  }

  lemma RecoverStepKeepsInv(s: Sys, a: Action)
    requires Inv(s) && (a.Recover? || a.Compare? || a.ReadReceipt?) && Enabled(s, a)
    ensures Inv(Next(s, a))
  {
    if !a.Recover? {
      assert CoordOk(s, s.coords[a.c]);
    }
    LocalStepKeepsInv(s, a.c, Next(s, a).coords[a.c]);
  }

  /** A failed receipt is recorded, while its request is the one in the yielding row. */
  lemma RecordKeepsCoord(s: Sys, doc: RequestDoc, receipt: Receipt, k: Coord)
    requires Inv(s) && CoordOk(s, k)
    requires Known(s, doc) && receipt.request == doc.request && AnswerOf(s, receipt, doc.segment)
    requires YieldingAt(s.row, doc.segment) && s.row.askId == Some(doc.request)
    ensures CoordOk(Log(s, YieldFailed(receipt)), k)
  {
    var s' := Log(s, YieldFailed(receipt));
    assert forall r :: Recorded(s', r) <==> Recorded(s, r) || r == receipt;
    if k.StaleRead? {
      RecordKeepsStale(s, doc, receipt, k);
    }
  }

  lemma RecordKeepsStale(s: Sys, doc: RequestDoc, receipt: Receipt, k: Coord)
    requires Inv(s) && CoordOk(s, k) && k.StaleRead?
    requires Known(s, doc) && receipt.request == doc.request && AnswerOf(s, receipt, doc.segment)
    requires YieldingAt(s.row, doc.segment) && s.row.askId == Some(doc.request)
    ensures CoordOk(Log(s, YieldFailed(receipt)), k)
  {
    LastFailureLog(s.events, YieldFailed(receipt));
    if k.receipt == receipt {
      assert Settled(s, k.segment);
      assert k.segment in s.receipts ==> AnswerOf(s, s.receipts[k.segment], k.segment);
    }
  }

  lemma RecordKeepsInv(s: Sys, doc: RequestDoc, receipt: Receipt)
    requires Inv(s)
    requires Known(s, doc) && receipt.request == doc.request && AnswerOf(s, receipt, doc.segment)
    requires YieldingAt(s.row, doc.segment) && s.row.askId == Some(doc.request)
    ensures Inv(Log(s, YieldFailed(receipt)))
  {
    var s' := Log(s, YieldFailed(receipt));
    assert forall r :: Recorded(s', r) <==> Recorded(s, r) || r == receipt;
    assert forall g :: Settled(s', g) <==> Settled(s, g);
    LastFailureLog(s.events, YieldFailed(receipt));
    forall d | d in s'.coords
      ensures CoordOk(s', s'.coords[d])
    {
      RecordKeepsCoord(s, doc, receipt, s.coords[d]);
    }
    forall g | g in s.receipts && s.receipts[g] == receipt
      ensures Settled(s, g)
    {
      assert AnswerOf(s, s.receipts[g], g);
    }
  }

  /** A request in the row that has been answered is not waiting for its publication. */
  lemma AnsweredIsNotPersisted(s: Sys, receipt: Receipt)
    requires Inv(s) && s.row.state.Yielding? && s.row.askId == Some(receipt.request) && receipt.request in s.answered
    ensures forall d :: d in s.coords ==> !s.coords[d].Persisted?
  {
    forall d | d in s.coords && s.coords[d].Persisted?
      ensures false
    {
      PersistedIsInTheRow(s, d);
    }
  }

  lemma AcceptFailureKeepsInv(s: Sys, a: Action)
    requires Inv(s) && a.AcceptFailure? && Enabled(s, a)
    ensures Inv(Next(s, a))
  {
    var FailureRead(doc, receipt) := s.coords[a.c];
    assert CoordOk(s, s.coords[a.c]);
    var updated := ResumeUpdate(s.row, doc);
    if updated.None? {
      LocalStepKeepsInv(s, a.c, Finished);
    } else {
      RecordKeepsInv(s, doc, receipt);
      var t := Log(s, YieldFailed(receipt));
      AnsweredIsNotPersisted(t, receipt);
      CoordinatorUpdatesKeepChecks(s.row, doc, "", Evidence("", "", "", ""));
      LeaveYieldingKeepsInv(t, updated.value);
      LocalStepKeepsInv(t.(row := updated.value), a.c, FailureCommitted(doc, receipt));
    }
  }

  lemma RequeueKeepsInv(s: Sys, a: Action)
    requires Inv(s) && a.Requeue? && Enabled(s, a)
    ensures Inv(Next(s, a))
  {
    var ReadyRead(doc, receipt) := s.coords[a.c];
    assert CoordOk(s, s.coords[a.c]);
    var updated := RequeueUpdate(s.row, doc, a.at, a.evidence);
    if updated.None? {
      LocalStepKeepsInv(s, a.c, Finished);
    } else {
      var e := Requeued(doc.request, receipt, doc.segment);
      AnsweredIsNotPersisted(s, receipt);
      CoordinatorUpdatesKeepChecks(s.row, doc, a.at, a.evidence);
      LeaveYieldingKeepsInv(s, updated.value);
      LogKeepsInv(s.(row := updated.value), e);
      LocalStepKeepsInv(Log(s.(row := updated.value), e), a.c, Finished);
    }
  }

  lemma IsolateKeepsInv(s: Sys, a: Action)
    requires Inv(s) && a.Isolate? && Enabled(s, a)
    ensures Inv(Next(s, a))
  {
    var updated := IsolateUpdate(s.row);
    if updated.None? {
      LocalStepKeepsInv(s, a.c, Finished);
    } else {
      LeaveYieldingKeepsInv(s, updated.value);
      LogKeepsInv(s.(row := updated.value), Isolated(s.row.segment));
      LocalStepKeepsInv(Log(s.(row := updated.value), Isolated(s.row.segment)), a.c, Finished);
    }
  }

  lemma CrashKeepsInv(s: Sys)
    requires Inv(s)
    ensures Inv(Next(s, Crash))
  {
    var s' := Next(s, Crash);
    assert forall r :: Recorded(s', r) <==> Recorded(s, r);
    assert forall g :: Settled(s', g) <==> Settled(s, g);
  }

  lemma StepKeepsInv(s: Sys, a: Action)
    requires Inv(s) && Enabled(s, a)
    ensures Inv(Next(s, a))
  {
    match a
    case Outside(change) => OutsideKeepsInv(s, change);
    case Answer(_, _) => AnswerKeepsInv(s, a);
    case Begin(_) => ClearingStepKeepsInv(s, a);
    case Look(_) => ClearingStepKeepsInv(s, a);
    case Authenticate(_) => ClearingStepKeepsInv(s, a);
    case Unlink(_, _, _) => UnlinkKeepsInv(s, a);
    case Persist(_, _) => PersistKeepsInv(s, a);
    case Publish(_, _, _) => PublishKeepsInv(s, a);
    case Restore(_) => RestoreKeepsInv(s, a);
    case Recover(_) => RecoverStepKeepsInv(s, a);
    case Compare(_) => RecoverStepKeepsInv(s, a);
    case ReadReceipt(_) => RecoverStepKeepsInv(s, a);
    case AcceptFailure(_) => AcceptFailureKeepsInv(s, a);
    case Requeue(_, _, _) => RequeueKeepsInv(s, a);
    case Isolate(_) => IsolateKeepsInv(s, a);
    case Crash => CrashKeepsInv(s);
  }
}
