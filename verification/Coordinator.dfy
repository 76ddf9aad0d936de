/**
 The legacy continuation coordinator's own code.  Its methods run step by step against a queue
 that other coordinators, the scheduler, the operator and the project keep changing.
 */
module Coordinator {
  import opened FileSystem
  import opened Yield
  import opened YieldInvariant
  import opened YieldTheorems

  /** What the others do before the k-th step of a method, and what its file operations come to. */
  datatype Weather = Weather(others: nat -> seq<Action>, publishOk: bool, publishEffect: bool, unlinkOk: bool, unlinkEffect: bool)

  predicate Foreign(c: nat, a: Action) {
    match a
    case Outside(_) => true
    case Answer(_, _) => true
    case Crash => false
    case _ => a.c != c
  }

  /** Another party's step leaves this coordinator alone. */
  predicate Spares(s: Sys, t: Sys, c: nat) {
    (c in s.coords <==> c in t.coords) && (c in s.coords ==> t.coords[c] == s.coords[c])
  }

  lemma RequestStepSpares(s: Sys, c: nat, a: Action)
    requires Enabled(s, a) && Foreign(c, a)
    requires a.Begin? || a.Look? || a.Authenticate? || a.Unlink?
    ensures Spares(s, Next(s, a), c)
  {}

  lemma AskStepSpares(s: Sys, c: nat, a: Action)
    requires Enabled(s, a) && Foreign(c, a)
    requires a.Persist? || a.Publish? || a.Restore? || a.Recover? || a.Compare?
    ensures Spares(s, Next(s, a), c)
  {}

  lemma ReadReceiptSpares(s: Sys, c: nat, a: Action)
    requires Enabled(s, a) && Foreign(c, a) && a.ReadReceipt?
    ensures Spares(s, Next(s, a), c)
  {}

  lemma AcceptFailureSpares(s: Sys, c: nat, a: Action)
    requires Enabled(s, a) && Foreign(c, a) && a.AcceptFailure?
    ensures Spares(s, Next(s, a), c)
  {
    if ResumeUpdate(s.row, s.coords[a.c].doc).Some? {
      assert Next(s, a) == AcceptFailureStep(s, a.c);
    } else {
      assert Next(s, a) == AcceptFailureStep(s, a.c);
    }
  }

  lemma RequeueSpares(s: Sys, c: nat, a: Action)
    requires Enabled(s, a) && Foreign(c, a) && a.Requeue?
    ensures Spares(s, Next(s, a), c)
  {
    if RequeueUpdate(s.row, s.coords[a.c].doc, a.at, a.evidence).Some? {
      assert Next(s, a).coords == s.coords[a.c := Finished];
    } else {
      assert Next(s, a).coords == s.coords[a.c := Finished];
    }
  }

  lemma IsolateSpares(s: Sys, c: nat, a: Action)
    requires Enabled(s, a) && Foreign(c, a) && a.Isolate?
    ensures Spares(s, Next(s, a), c)
  {
    if s.row.state.Yielding? {
      assert IsolateStep(s, a.c).coords == s.coords[a.c := Finished];
    } else {
      assert IsolateStep(s, a.c).coords == s.coords[a.c := Finished];
    }
  }

  lemma ForeignStepSpares(s: Sys, c: nat, a: Action)
    requires Enabled(s, a) && Foreign(c, a)
    ensures Spares(s, Next(s, a), c)
  {
    if a.Begin? || a.Look? || a.Authenticate? || a.Unlink? {
      RequestStepSpares(s, c, a);
    } else if a.Persist? || a.Publish? || a.Restore? || a.Recover? || a.Compare? {
      AskStepSpares(s, c, a);
    } else if a.ReadReceipt? {
      ReadReceiptSpares(s, c, a);
    } else if a.AcceptFailure? {
      AcceptFailureSpares(s, c, a);
    } else if a.Requeue? {
      RequeueSpares(s, c, a);
    } else if a.Isolate? {
      IsolateSpares(s, c, a);
    }
  }

  /** `Unremoved`: the failure is committed, the removal of its receipt reported an error. */
  datatype Reconciled = NoReceipt | NotFailed | Resumed(receipt: Receipt) | Unremoved(receipt: Receipt) | Overtaken | Refused
  datatype Finalized = Requeuing(receipt: Receipt) | Isolating | Lost | Invalid

  const YIELD_EXIT_CODE := 75

  /** Nobody else acts. */
  ghost predicate Alone(w: Weather) {
    forall k :: w.others(k) == []
  }

  /** The item is running, preemptible and in this segment. */
  predicate Takes(r: Row, segment: nat) {
    r.state.Running? && r.preemptible && r.segment == segment
  }

  /** No receipt is in the way, or the one that is belongs to the last recorded failure and can be removed. */
  predicate Clears(s: Sys, segment: nat, w: Weather) {
    segment in s.receipts ==> LastFailure(s.events) == Some(s.receipts[segment]) && w.unlinkOk
  }

  predicate PublishedAs(s: Sys, doc: RequestDoc) {
    doc.segment in s.requests && s.requests[doc.segment] == doc
  }

  function ReceiptAt(s: Sys, segment: nat): Option<Receipt> {
    if segment in s.receipts then Some(s.receipts[segment]) else None
  }

  /** The receipt is a valid answer to this request. */
  predicate Answers(receipt: Receipt, doc: RequestDoc) {
    receipt.request == doc.request && receipt.valid
  }

  /** All that a continuation needs, but the row. */
  predicate Continues(seen: Option<Receipt>, doc: RequestDoc, returnCode: int, runnerAgrees: bool) {
    seen.Some? && Answers(seen.value, doc) && seen.value.ready && returnCode == YIELD_EXIT_CODE && runnerAgrees
  }

  /** The row is queued for the next segment with the receipt's checkpoint and no GPU lease. */
  predicate Resumable(r: Row, doc: RequestDoc, at: string, e: Evidence) {
    && r.state.Queued? && r.segment == doc.segment + 1
    && !r.leaseHeld && r.leaseReleasedAt == Some(at)
    && r.pid.None? && r.pgid.None? && r.ticks.None?
    && r.checkpoint == Some(e.checkpoint) && r.checkpointSha == Some(e.checkpointSha)
    && r.metadata == Some(e.metadata) && r.metadataSha == Some(e.metadataSha)
  }

  class Queue {
    var sys: Sys
    ghost var origin: Sys
    ghost var history: seq<Action>

    /** Every state of the queue is a reachable state of the protocol. */
    ghost predicate Valid()
      reads this
    {
      Reaches(origin, history, sys)
    }

    method Do(a: Action)
      requires Valid() && Enabled(sys, a)
      modifies this
      ensures Valid() && origin == old(origin)
      ensures sys == Next(old(sys), a) && history == old(history) + [a]
    {
      sys := Next(sys, a);
      history := history + [a];
      assert history[..|history| - 1] == old(history);
    }

    method Others(c: nat, schedule: seq<Action>)
      requires Valid()
      modifies this
      ensures Valid() && origin == old(origin)
      ensures Spares(old(sys), sys, c)
      ensures schedule == [] ==> sys == old(sys)
    {
      for k := 0 to |schedule|
        invariant Valid() && origin == old(origin)
        invariant Spares(old(sys), sys, c)
        invariant k == 0 ==> sys == old(sys)
      {
        if Foreign(c, schedule[k]) && Enabled(sys, schedule[k]) {
          ForeignStepSpares(sys, c, schedule[k]);
          Do(schedule[k]);
        }
      }
    }

    predicate Coord(c: nat, k: Coord)
      reads this
    {
      c in sys.coords && sys.coords[c] == k
    }

    /** `_discard_recorded_failed_receipt`: the path is clear, or the request is refused. */
    method DiscardRecordedFailedReceipt(c: nat, segment: nat, w: Weather) returns (clear: bool)
      requires Valid() && Coord(c, Began(segment))
      modifies this
      ensures Valid() && origin == old(origin)
      ensures clear ==> Coord(c, Cleared(segment))
      ensures !clear ==> Coord(c, Finished)
      ensures Alone(w) ==> (clear <==> old(Clears(sys, segment, w))) && sys.row == old(sys.row) && sys.asked == old(sys.asked)
    {
      Others(c, w.others(0));
      Do(Look(c));
      if sys.coords[c].Cleared? {
        return true;
      }
      Others(c, w.others(1));
      Do(Authenticate(c));
      if sys.coords[c].Finished? {
        return false;
      }
      Others(c, w.others(2));
      Do(Unlink(c, w.unlinkOk, w.unlinkEffect));
      return w.unlinkOk;
    }

    /** A running preemptible item, and no leftover receipt in the way. */
    method ClearTheWay(c: nat, segment: nat, w: Weather) returns (clear: bool)
      requires Valid() && c !in sys.coords
      modifies this
      ensures Valid() && origin == old(origin)
      ensures clear ==> Coord(c, Cleared(segment))
      ensures clear ==> old(sys.row.state.Running? && sys.row.preemptible && sys.row.segment == segment)
      ensures Alone(w) ==> (clear <==> old(Takes(sys.row, segment) && Clears(sys, segment, w))) && sys.row == old(sys.row) && sys.asked == old(sys.asked)
    {
      if !sys.row.state.Running? || !sys.row.preemptible || sys.row.segment != segment {
        return false;
      }
      Do(Begin(c));
      clear := DiscardRecordedFailedReceipt(c, segment, w);
    }

    /** `request_manual_yield` up to the signal: persist, then publish; a request that cannot be
        published is withdrawn unless the row has moved on. */
    method RequestManualYield(c: nat, doc: RequestDoc, w: Weather) returns (pending: Option<RequestDoc>)
      requires Valid() && c !in sys.coords
      modifies this
      ensures Valid() && origin == old(origin)
      ensures pending.Some? ==> pending.value == doc && Coord(c, Holding(doc)) && Known(sys, doc)
      // a request is pending only if the item could take it and it was published; alone, exactly then
      ensures pending.Some? ==> old(Takes(sys.row, doc.segment)) && w.publishOk
      ensures Alone(w) ==>
                (pending.Some? <==> w.publishOk && old(&& Takes(sys.row, doc.segment) && Clears(sys, doc.segment, w)
                                                       && doc.request !in sys.asked && sys.row.gpu == Some(doc.gpu)))
    {
      pending := None;
      var clear := ClearTheWay(c, doc.segment, w);
      if !clear {
        return;
      }
      Others(c, w.others(3));
      // the request id is a fresh random token and the GPU is read in the same transaction
      if doc.request in sys.asked || (sys.row.state.Running? && sys.row.gpu != Some(doc.gpu)) {
        return;
      }
      Do(Persist(c, doc));
      if sys.coords[c].Finished? {
        return;
      }
      var published := PublishOrWithdraw(c, doc, w);
      if published {
        pending := Some(doc);
      }
    }

    /** Publication of a persisted request. */
    method PublishOrWithdraw(c: nat, doc: RequestDoc, w: Weather) returns (published: bool)
      requires Valid() && Coord(c, Persisted(doc))
      modifies this
      ensures Valid() && origin == old(origin)
      ensures published ==> Coord(c, Holding(doc)) && Known(sys, doc)
      ensures !published ==> Coord(c, Finished) && !(sys.row.state.Yielding? && sys.row.askId == Some(doc.request))
      ensures published == w.publishOk
      ensures Alone(w) && !published && old(ResumeUpdate(sys.row, doc)).Some? ==> Some(sys.row) == old(ResumeUpdate(sys.row, doc))
    {
      Others(c, w.others(4));
      Do(Publish(c, w.publishOk, w.publishEffect));
      if w.publishOk {
        RunKeepsInv(origin, history, sys);
        assert CoordOk(sys, sys.coords[c]);
        return true;
      }
      Withdraw(c, doc, w);
      published := false;
    }

    /** The guarded update that takes an unpublished request back. */
    method Withdraw(c: nat, doc: RequestDoc, w: Weather)
      requires Valid() && Coord(c, Unpublished(doc))
      modifies this
      ensures Valid() && origin == old(origin)
      ensures Coord(c, Finished) && !(sys.row.state.Yielding? && sys.row.askId == Some(doc.request))
      ensures Alone(w) && old(ResumeUpdate(sys.row, doc)).Some? ==> Some(sys.row) == old(ResumeUpdate(sys.row, doc))
    {
      Others(c, w.others(5));
      RunKeepsInv(origin, history, sys);
      assert CoordOk(sys, Unpublished(doc));
      Do(Restore(c));
    }

    /** `recover_pending`: the request is rebuilt from the row and must equal the published one; it is
        then exactly the request that was persisted. */
    method RecoverPending(c: nat, w: Weather) returns (pending: Option<RequestDoc>)
      requires Valid() && c !in sys.coords
      modifies this
      ensures Valid() && origin == old(origin)
      ensures pending.Some? ==>
                && Coord(c, Holding(pending.value)) && Known(sys, pending.value)
                && old(sys.row.state.Yielding? && sys.row.askId.Some?)
                && old(sys.row.askId.value in sys.asked)
                && pending.value == old(sys.asked[sys.row.askId.value])
      ensures Alone(w) ==> (pending.Some? <==> old(sys.row.state.Yielding? && sys.row.preemptible && Rebuild(sys.row).Some?
                                                   && PublishedAs(sys, Rebuild(sys.row).value)))
    {
      pending := None;
      if !sys.row.state.Yielding? || !sys.row.preemptible || Rebuild(sys.row).None? {
        return;
      }
      RunKeepsInv(origin, history, sys);
      Do(Recover(c));
      var doc := sys.coords[c].doc;
      Others(c, w.others(0));
      Do(Compare(c));
      if sys.coords[c].Holding? {
        RunKeepsInv(origin, history, sys);
        assert CoordOk(sys, sys.coords[c]);
        pending := Some(doc);
      }
    }

    /** `reconcile_live_failure`: a live process whose checkpoint failed goes on running, and its
        receipt is removed only after the failure is on record. */
    method ReconcileLiveFailure(c: nat, doc: RequestDoc, alive: bool, w: Weather) returns (r: Reconciled, ghost seen: Option<Receipt>)
      requires Valid() && Coord(c, Holding(doc))
      modifies this
      ensures Valid() && origin == old(origin)
      // which outcome the receipt that was read, the process and the row lead to
      ensures Alone(w) ==> seen == old(ReceiptAt(sys, doc.segment))
      ensures r.NoReceipt? <==> seen.None?
      ensures r.NotFailed? <==> seen.Some? && Answers(seen.value, doc) && seen.value.ready
      ensures r.Refused? <==> seen.Some? && (!Answers(seen.value, doc) || (!seen.value.ready && !alive))
      ensures r.Overtaken? ==> ResumeUpdate(sys.row, doc).None?
      ensures r.Resumed? || r.Unremoved? ==> alive && Some(r.receipt) == seen && (r.Resumed? <==> w.unlinkOk)
      ensures Alone(w) && alive && seen.Some? && Answers(seen.value, doc) && !seen.value.ready ==>
                (r.Overtaken? <==> old(ResumeUpdate(sys.row, doc)).None?)
      ensures r.Resumed? || r.Unremoved? ==>
                && YieldFailed(r.receipt) in sys.events && r.receipt.request == doc.request
                && doc.request in sys.answered && sys.answered[doc.request] == r.receipt
    {
      Others(c, w.others(0));
      seen := ReceiptAt(sys, doc.segment);
      if doc.segment !in sys.receipts {
        r := NoReceipt;
        return;
      }
      Do(ReadReceipt(c));
      if !sys.coords[c].FailureRead? {
        r := if sys.coords[c].ReadyRead? then NotFailed else Refused;
        return;
      }
      if !alive {
        r := Refused;
        return;
      }
      var receipt := sys.coords[c].receipt;
      var committed := ResumeAfterFailure(c, doc, receipt, w);
      r := if !committed then Overtaken else if w.unlinkOk then Resumed(receipt) else Unremoved(receipt);
    }

    /** Commit the failure and the return to running, then remove the receipt. */
    method ResumeAfterFailure(c: nat, doc: RequestDoc, receipt: Receipt, w: Weather) returns (committed: bool)
      requires Valid() && Coord(c, FailureRead(doc, receipt))
      modifies this
      ensures Valid() && origin == old(origin)
      ensures committed ==>
                && YieldFailed(receipt) in sys.events && receipt.request == doc.request
                && doc.request in sys.answered && sys.answered[doc.request] == receipt
      ensures !committed ==> ResumeUpdate(sys.row, doc).None?
      ensures Alone(w) ==> (committed <==> old(ResumeUpdate(sys.row, doc)).Some?)
    {
      Others(c, w.others(1));
      Do(AcceptFailure(c));
      if sys.coords[c].Finished? {
        return false;
      }
      RemoveCommitted(c, doc, receipt, w);
      committed := true;
    }

    /** The removal of a receipt whose failure is on record. */
    method RemoveCommitted(c: nat, doc: RequestDoc, receipt: Receipt, w: Weather)
      requires Valid() && Coord(c, FailureCommitted(doc, receipt))
      modifies this
      ensures Valid() && origin == old(origin)
      ensures YieldFailed(receipt) in sys.events && receipt.request == doc.request
      ensures doc.request in sys.answered && sys.answered[doc.request] == receipt
      ensures w.unlinkOk ==> doc.segment !in sys.receipts
    {
      Others(c, w.others(2));
      RunKeepsInv(origin, history, sys);
      assert CoordOk(sys, sys.coords[c]) && Recorded(sys, receipt);
      Do(Unlink(c, w.unlinkOk, w.unlinkEffect));
    }

    /** The guarded update behind a validated ready receipt. */
    method AcceptReady(c: nat, doc: RequestDoc, receipt: Receipt, at: string, e: Evidence, w: Weather) returns (accepted: bool)
      requires Valid() && Coord(c, ReadyRead(doc, receipt))
      modifies this
      ensures Valid() && origin == old(origin)
      ensures accepted ==> Resumable(sys.row, doc, at, e) && doc.request in sys.answered && sys.answered[doc.request] == receipt
      ensures !accepted ==> Coord(c, Finished) && RequeueUpdate(sys.row, doc, at, e).None?
      ensures Alone(w) ==> (accepted <==> old(RequeueUpdate(sys.row, doc, at, e)).Some?)
    {
      Others(c, w.others(1));
      RunKeepsInv(origin, history, sys);
      assert CoordOk(sys, sys.coords[c]);
      accepted := RequeueUpdate(sys.row, doc, at, e).Some?;
      Do(Requeue(c, at, e));
    }

    /** Terminal isolation, which never overrides another transition. */
    method IsolateFailure(c: nat, w: Weather) returns (isolated: bool)
      requires Valid() && c in sys.coords && (sys.coords[c].Holding? || sys.coords[c].FailureRead? || sys.coords[c].ReadyRead? || sys.coords[c].Rejected?)
      modifies this
      ensures Valid() && origin == old(origin)
      ensures isolated ==> sys.row.state.Failed? && sys.row.leaseHeld
      ensures Coord(c, Finished) && (!isolated ==> !sys.row.state.Yielding?)
      ensures Alone(w) ==> (isolated <==> old(sys.row.state.Yielding?))
    {
      Others(c, w.others(2));
      RunKeepsInv(origin, history, sys);
      isolated := sys.row.state.Yielding?;
      Do(Isolate(c));
    }

    /** `finalize_manual_yield`: requeue behind a validated ready receipt and the exit code that goes with it,
        isolate otherwise, and give way to a termination that came first.  `runnerAgrees` is what the runner's own
        terminal receipt says. */
    method FinalizeManualYield(c: nat, doc: RequestDoc, returnCode: int, runnerAgrees: bool, at: string, e: Evidence, w: Weather)
      returns (r: Finalized, ghost seen: Option<Receipt>)
      requires Valid() && Coord(c, Holding(doc))
      modifies this
      ensures Valid() && origin == old(origin)
      ensures r.Requeuing? ==>
                && Resumable(sys.row, doc, at, e) && r.receipt.ready && r.receipt.valid
                && doc.request in sys.answered && sys.answered[doc.request] == r.receipt
      ensures r.Isolating? ==> sys.row.state.Failed? && sys.row.leaseHeld
      ensures r.Lost? ==> Coord(c, Finished)
      // which outcome the return code, the receipt that was read and the row lead to
      ensures r.Invalid? <==> returnCode < 0
      ensures r.Invalid? ==> sys == old(sys)
      ensures Alone(w) && returnCode >= 0 ==> seen == old(ReceiptAt(sys, doc.segment))
      ensures returnCode >= 0 && Continues(seen, doc, returnCode, runnerAgrees) ==>
                r == Requeuing(seen.value) || (r.Lost? && RequeueUpdate(sys.row, doc, at, e).None?)
      ensures returnCode >= 0 && !Continues(seen, doc, returnCode, runnerAgrees) ==>
                r.Isolating? || (r.Lost? && !sys.row.state.Yielding?)
      ensures Alone(w) && returnCode >= 0 && old(RequeueUpdate(sys.row, doc, at, e)).Some? ==>
                r == if Continues(seen, doc, returnCode, runnerAgrees) then Requeuing(seen.value) else Isolating
    {
      seen := None;
      if returnCode < 0 {
        r := Invalid;
        return;
      }
      Others(c, w.others(0));
      seen := ReceiptAt(sys, doc.segment);
      if doc.segment in sys.receipts {
        var receipt := sys.receipts[doc.segment];
        Do(ReadReceipt(c));
        if sys.coords[c].ReadyRead? && returnCode == YIELD_EXIT_CODE && runnerAgrees {
          var accepted := AcceptReady(c, doc, receipt, at, e, w);
          r := if accepted then Requeuing(receipt) else Lost;
          return;
        }
      }
      var isolated := IsolateFailure(c, w);
      r := if isolated then Isolating else Lost;
    }
  }
}
