/**
 The executor's own code: publishing immutable evidence, confirming it for a reader, and
 starting the scientific child behind the launch receipt.
 */
module Executor {
  import opened FileSystem
  import opened Publication
  import opened PublicationInvariant
  import opened PublicationTheorems
  import opened Machines

  /** How `_publish_immutable_json` ends.  `staging` is the staging name an error reports as
      preserved. */
  datatype Outcome =
    | Done
    | Refused                                        // the final name was there already
    | DurabilityUncertain(tag: nat)
    | PublicationFailed(cause: Cause, staging: Option<nat>)

  /** A publisher has its document staged at `tag`. */
  ghost predicate Stages(s: Sys, p: Pid, doc: Bytes, tag: nat, stage: Stage) {
    At(s, p, stage) && s.procs[p].role.Evidence? && s.procs[p].doc == doc && s.procs[p].tag == tag
  }

  lemma ReturnedMeansDurable(m: Machine, p: Pid)
    requires m.Valid() && At(m.sys, p, Returned)
    ensures Holds(m.sys.dir, m.sys.procs[p].doc)
  {
    RunKeepsInv(m.origin, m.history, m.sys);
  }

  /** The final name is durable and carries this document. */
  predicate Holds(d: Directory, doc: Bytes) {
    Final in d.durable && FinalFile(d) == Some(File(doc, true, doc))
  }

  /** A failure behind the durable link leaves the document where it is. */
  lemma FailingMeansDurable(m: Machine, p: Pid)
    requires m.Valid() && p in m.sys.procs && m.sys.procs[p].Publisher?
    requires m.sys.procs[p].stage.Failing? && m.sys.procs[p].stage.settled && m.sys.procs[p].stage.linked
    ensures Holds(m.sys.dir, m.sys.procs[p].doc)
  {
    RunKeepsInv(m.origin, m.history, m.sys);
  }

  /** An interrupt, and no I/O failure, of the clean-up behind the durable link. */
  predicate CutShort(w: Weather) {
    || Raised(w.faults(7)) == Some(Interrupt)
    || (w.faults(7).Fine? && Raised(w.faults(8)) == Some(Interrupt))
  }

  /** The complete document is still there under the staging name, if not durable elsewhere. */
  predicate Preserved(d: Directory, doc: Bytes, tag: nat) {
    || Final in d.durable
    || (&& Staging(tag) in d.visible && d.visible[Staging(tag)] in d.files
        && d.files[d.visible[Staging(tag)]] == File(doc, true, doc))
  }

  lemma FailingKeepsStaging(m: Machine, p: Pid)
    requires m.Valid() && p in m.sys.procs && m.sys.procs[p].Publisher?
    requires m.sys.procs[p].stage.Failing? && m.sys.procs[p].stage.complete
    ensures Preserved(m.sys.dir, m.sys.procs[p].doc, m.sys.procs[p].tag)
  {
    RunKeepsInv(m.origin, m.history, m.sys);
  }

  /** What the failure of an operation other than the link raises. */
  function Raised(f: Fault): Option<Cause> {
    if f.Fails? then Some(CauseOf(f)) else None
  }

  /** Nobody else acts, and no final name is there. */
  ghost predicate Unopposed(m: Machine, w: Weather)
    reads m
  {
    Alone(w) && Final !in m.sys.dir.visible
  }

  /** `tempfile.mkstemp`. */
  method CreateStaging(m: Machine, p: Pid, doc: Bytes, w: Weather) returns (failure: Option<Cause>)
    requires m.Valid() && p in m.sys.procs && m.sys.procs[p] == Creating(Evidence, doc)
    modifies m
    ensures m.Valid() && m.origin == old(m.origin)
    ensures failure.None? ==> Stages(m.sys, p, doc, w.tag, Writing)
    ensures failure.Some? ==> p in m.sys.procs && m.sys.procs[p].Ended?
    ensures failure == Raised(w.faults(1)) || (w.faults(1).Fine? && failure == Some(OsFailure))
    ensures old(Unopposed(m, w)) ==> Unopposed(m, w)
    ensures old(Alone(w) && Free(m, w)) ==> failure == Raised(w.faults(1))
  {
    m.Others(p, w.others(1));
    if w.faults(1).Fails? || Staging(w.tag) in m.sys.dir.visible || w.inode in m.sys.dir.files {
      failure := Some(CauseOf(w.faults(1)));
      m.Do(OtherFails(p, failure.value));
    } else {
      failure := None;
      m.Do(Create(p, w.tag, w.inode));
    }
  }

  /** Writing the document and syncing the file. */
  method FillStaging(m: Machine, p: Pid, doc: Bytes, w: Weather) returns (failure: Option<Cause>)
    requires m.Valid() && Stages(m.sys, p, doc, w.tag, Writing)
    modifies m
    ensures m.Valid() && m.origin == old(m.origin)
    ensures failure.None? ==> Stages(m.sys, p, doc, w.tag, Synced)
    ensures failure.Some? ==> Stages(m.sys, p, doc, w.tag, Failing(false, false, false, failure.value))
    ensures failure == if w.faults(2).Fails? then Raised(w.faults(2)) else Raised(w.faults(3))
    ensures old(Unopposed(m, w)) ==> Unopposed(m, w)
  {
    m.Others(p, w.others(2));
    WritePossible(m, p);
    if w.faults(2).Fails? {
      failure := Some(CauseOf(w.faults(2)));
      m.Do(OtherFails(p, failure.value));
    } else {
      m.Do(Write(p, doc));
      failure := SyncStaging(m, p, doc, w);
    }
  }

  /** Syncing the written file. */
  method SyncStaging(m: Machine, p: Pid, doc: Bytes, w: Weather) returns (failure: Option<Cause>)
    requires m.Valid() && Stages(m.sys, p, doc, w.tag, Written)
    modifies m
    ensures m.Valid() && m.origin == old(m.origin)
    ensures failure.None? ==> Stages(m.sys, p, doc, w.tag, Synced)
    ensures failure.Some? ==> Stages(m.sys, p, doc, w.tag, Failing(false, false, false, failure.value))
    ensures failure == Raised(w.faults(3))
    ensures old(Unopposed(m, w)) ==> Unopposed(m, w)
  {
    m.Others(p, w.others(3));
    WritePossible(m, p);
    failure := Raised(w.faults(3));
    if failure.Some? {
      m.Do(OtherFails(p, failure.value));
    } else {
      m.Do(SyncFile(p));
    }
  }

  /** The directory sync that makes the complete staging name durable. */
  method SecureStaging(m: Machine, p: Pid, doc: Bytes, w: Weather) returns (failure: Option<Cause>)
    requires m.Valid() && Stages(m.sys, p, doc, w.tag, Synced)
    modifies m
    ensures m.Valid() && m.origin == old(m.origin)
    ensures failure.None? ==> Stages(m.sys, p, doc, w.tag, Backed)
    ensures failure.Some? ==> Stages(m.sys, p, doc, w.tag, Failing(false, false, true, failure.value))
    ensures failure == Raised(w.faults(4))
    ensures old(Unopposed(m, w)) ==> Unopposed(m, w)
  {
    m.Others(p, w.others(4));
    failure := Raised(w.faults(4));
    if failure.Some? {
      m.Do(SyncDirFails(p, w.faults(4).picked, failure.value));
    } else {
      m.Do(SyncDir(p));
    }
  }

  /** The no-clobber link and the directory sync behind it. */
  method LinkDocument(m: Machine, p: Pid, doc: Bytes, w: Weather) returns (linked: bool, failure: Option<Cause>)
    requires m.Valid() && Stages(m.sys, p, doc, w.tag, Backed)
    modifies m
    ensures m.Valid() && m.origin == old(m.origin)
    ensures failure.None? ==> Stages(m.sys, p, doc, w.tag, Settled)
    ensures failure.Some? ==> Stages(m.sys, p, doc, w.tag, Failing(linked, false, true, failure.value))
    ensures linked ==> w.faults(5).Fine? && failure == Raised(w.faults(6))
    ensures !linked && failure != Some(AlreadyExists) ==> w.faults(5).Fails? && failure == Raised(w.faults(5))
    ensures failure == Some(AlreadyExists) ==> !linked && Final in m.sys.dir.visible
    ensures old(Unopposed(m, w)) ==> failure != Some(AlreadyExists)
    ensures old(Unopposed(m, w)) && !linked ==> (SameFile(m.sys.dir, w.tag) <==> w.faults(5).effect)
  {
    linked := false;
    // os.link
    m.Others(p, w.others(5));
    LinkPossible(m, p);
    if w.faults(5).Fails? && Final !in m.sys.dir.visible {
      failure := Some(CauseOf(w.faults(5)));
      m.Do(LinkFails(p, w.faults(5).effect && Staging(w.tag) in m.sys.dir.visible, failure.value));
      return;
    }
    var taken := Final in m.sys.dir.visible;
    m.Do(Link(p));
    if taken {
      failure := Some(AlreadyExists);
      return;
    }
    linked := true;
    failure := SettleLink(m, p, doc, w);
  }

  /** The second directory fsync. */
  method SettleLink(m: Machine, p: Pid, doc: Bytes, w: Weather) returns (failure: Option<Cause>)
    requires m.Valid() && Stages(m.sys, p, doc, w.tag, Linked)
    modifies m
    ensures m.Valid() && m.origin == old(m.origin)
    ensures failure.None? ==> Stages(m.sys, p, doc, w.tag, Settled)
    ensures failure.Some? ==> Stages(m.sys, p, doc, w.tag, Failing(true, false, true, failure.value))
    ensures failure == Raised(w.faults(6))
  {
    m.Others(p, w.others(6));
    failure := Raised(w.faults(6));
    if failure.Some? {
      m.Do(SyncDirFails(p, w.faults(6).picked, failure.value));
    } else {
      m.Do(SyncDir(p));
    }
  }

  /** Dropping the staging name once the final name is durable: best effort, so that only an
      interrupt gets out. */
  method SweepStaging(m: Machine, p: Pid, doc: Bytes, w: Weather) returns (r: Outcome)
    requires m.Valid() && Stages(m.sys, p, doc, w.tag, Settled)
    modifies m
    ensures m.Valid() && m.origin == old(m.origin)
    ensures r == if CutShort(w) then PublicationFailed(Interrupt, None) else Done
    ensures r.Done? ==> Stages(m.sys, p, doc, w.tag, Returned)
    ensures !r.Done? ==> p in m.sys.procs && m.sys.procs[p].Ended?
    ensures Holds(m.sys.dir, doc)
  {
    m.Others(p, w.others(7));
    if w.faults(7).Fails? && CauseOf(w.faults(7)).Interrupt? {
      SweepInterrupted(m, p, doc, w);
      return PublicationFailed(Interrupt, None);
    }
    m.Do(Unlink(p, w.faults(7).Fine?));
    if w.faults(7).Fine? {
      r := SettleSweep(m, p, doc, w);
    } else {
      ReturnedMeansDurable(m, p);
      r := Done;
    }
  }

  /** An interrupt of the unlink, with or without its effect: the `finally` block tries again. */
  method SweepInterrupted(m: Machine, p: Pid, doc: Bytes, w: Weather)
    requires m.Valid() && Stages(m.sys, p, doc, w.tag, Settled) && w.faults(7).Fails?
    modifies m
    ensures m.Valid() && m.origin == old(m.origin)
    ensures p in m.sys.procs && m.sys.procs[p].Ended? && Holds(m.sys.dir, doc)
    ensures w.faults(10).Fine? ==> Staging(w.tag) !in m.sys.dir.visible
  {
    if w.faults(7).effect {
      m.Do(Unlink(p, true));
    }
    m.Do(OtherFails(p, Interrupt));
    Abandon(m, p, doc, w);
  }

  /** The handler and the `finally` block behind the durable link. */
  method Abandon(m: Machine, p: Pid, doc: Bytes, w: Weather)
    requires m.Valid() && Stages(m.sys, p, doc, w.tag, Failing(true, true, true, Interrupt))
    modifies m
    ensures m.Valid() && m.origin == old(m.origin)
    ensures p in m.sys.procs && m.sys.procs[p].Ended? && Holds(m.sys.dir, doc)
    ensures w.faults(10).Fine? ==> Staging(w.tag) !in m.sys.dir.visible
  {
    m.Others(p, w.others(9));
    FailingMeansDurable(m, p);
    m.Do(Inspect(p, w.check));
    DropStaging(m, p, doc, w);
  }

  /** The last directory sync: an I/O failure does not matter, and an interrupt finds nothing
      left to remove. */
  method SettleSweep(m: Machine, p: Pid, doc: Bytes, w: Weather) returns (r: Outcome)
    requires m.Valid() && Stages(m.sys, p, doc, w.tag, Swept)
    modifies m
    ensures m.Valid() && m.origin == old(m.origin)
    ensures r == if Raised(w.faults(8)) == Some(Interrupt) then PublicationFailed(Interrupt, None) else Done
    ensures r.Done? ==> Stages(m.sys, p, doc, w.tag, Returned)
    ensures !r.Done? ==> p in m.sys.procs && m.sys.procs[p].Ended?
    ensures Holds(m.sys.dir, doc)
  {
    m.Others(p, w.others(8));
    if w.faults(8).Fails? {
      m.Do(SyncDirFails(p, w.faults(8).picked, CauseOf(w.faults(8))));
      if CauseOf(w.faults(8)).Interrupt? {
        FailingMeansDurable(m, p);
        m.Do(Inspect(p, Blind));
        m.Do(Unlink(p, false));
        return PublicationFailed(Interrupt, None);
      }
    } else {
      m.Do(SyncDir(p));
    }
    ReturnedMeansDurable(m, p);
    r := Done;
  }

  /** The exception handler and the `finally` block. */
  method HandleFailure(m: Machine, p: Pid, doc: Bytes, linked: bool, complete: bool, cause: Cause, w: Weather) returns (r: Outcome)
    requires m.Valid() && Stages(m.sys, p, doc, w.tag, Failing(linked, false, complete, cause))
    modifies m
    ensures m.Valid() && m.origin == old(m.origin)
    ensures !r.Done?
    ensures linked && !w.check.Cut? ==> r.DurabilityUncertain?
    ensures r.DurabilityUncertain? ==> !w.check.Cut? && (linked || w.check.Sees?)
    ensures Alone(w) ==> (r.DurabilityUncertain? <==> !w.check.Cut? && (linked || (w.check.Sees? && SameFile(old(m.sys.dir), w.tag))))
    ensures r.Refused? <==> cause.AlreadyExists? && !r.DurabilityUncertain? && !w.check.Cut?
    ensures Final in old(m.sys.dir).visible ==> Final in m.sys.dir.visible
    ensures r.DurabilityUncertain? ==> r.tag == w.tag && Stages(m.sys, p, doc, w.tag, Uncertain)
    ensures !r.DurabilityUncertain? ==> p in m.sys.procs && m.sys.procs[p].Ended?
    ensures r.PublicationFailed? ==>
              if w.check.Cut? then r.cause.Interrupt? && r.staging == None
              else r.cause == cause && r.staging == if complete && cause.OsFailure? then Some(w.tag) else None
    ensures r.PublicationFailed? && r.staging.Some? ==> Preserved(m.sys.dir, doc, w.tag)
  {
    m.Others(p, w.others(9));
    if complete {
      FailingKeepsStaging(m, p);
    }
    m.Do(Inspect(p, w.check));
    if At(m.sys, p, Uncertain) {
      return DurabilityUncertain(w.tag);
    }
    if complete && cause.OsFailure? && !w.check.Cut? {
      return PublicationFailed(cause, Some(w.tag));
    }
    DropStaging(m, p, doc, w);
    return if w.check.Cut? then PublicationFailed(Interrupt, None)
           else if cause.AlreadyExists? then Refused else PublicationFailed(cause, None);
  }

  /** The `finally` block: the staging name goes, if it can be removed. */
  method DropStaging(m: Machine, p: Pid, doc: Bytes, w: Weather)
    requires m.Valid() && Stages(m.sys, p, doc, w.tag, Aborting)
    modifies m
    ensures m.Valid() && m.origin == old(m.origin)
    ensures p in m.sys.procs && m.sys.procs[p].Ended?
    ensures Final in old(m.sys.dir).visible ==> Final in m.sys.dir.visible
    ensures Holds(old(m.sys.dir), doc) ==> Holds(m.sys.dir, doc)
    ensures w.faults(10).Fine? ==> Staging(w.tag) !in m.sys.dir.visible
  {
    m.Others(p, w.others(10));
    FinalStays(m, Unlink(p, w.faults(10).Fine?));
    m.Do(Unlink(p, w.faults(10).Fine?));
  }

  /** The staging name and inode the system picks are unused. */
  ghost predicate Free(m: Machine, w: Weather)
    reads m
  {
    Staging(w.tag) !in m.sys.dir.visible && w.inode !in m.sys.dir.files
  }

  /** Nothing fails up to the durable link. */
  ghost predicate Lands(w: Weather) {
    forall k | 1 <= k <= 6 :: w.faults(k).Fine?
  }

  /** The outcome of an unopposed publication, by the first operation that fails. */
  function Sequel(w: Weather): Outcome {
    if w.faults(1).Fails? then PublicationFailed(CauseOf(w.faults(1)), None) else Continued(w)
  }

  function Continued(w: Weather): Outcome {
    var f := w.faults;
    if f(2).Fails? then Lost(w, CauseOf(f(2)), false)
    else if f(3).Fails? then Lost(w, CauseOf(f(3)), false)
    else if f(4).Fails? then Lost(w, CauseOf(f(4)), true)
    else if f(5).Fails? then
      if f(5).effect && w.check.Sees? then DurabilityUncertain(w.tag) else Lost(w, CauseOf(f(5)), true)
    else if f(6).Fails? && !w.check.Cut? then DurabilityUncertain(w.tag)
    else if f(6).Fails? || CutShort(w) then PublicationFailed(Interrupt, None)
    else Done
  }

  /** An ordinary error: only an I/O failure keeps the complete staging file. */
  function Lost(w: Weather, cause: Cause, complete: bool): Outcome {
    if w.check.Cut? then PublicationFailed(Interrupt, None)
    else PublicationFailed(cause, if complete && cause.OsFailure? then Some(w.tag) else None)
  }

  /** What a publication promises, however it ends. */
  ghost predicate Settles(m: Machine, p: Pid, doc: Bytes, w: Weather, r: Outcome)
    reads m
  {
    && (r.Done? ==> Stages(m.sys, p, doc, w.tag, Returned))
    && (r.DurabilityUncertain? ==> r.tag == w.tag && Stages(m.sys, p, doc, w.tag, Uncertain))
    && (r.PublicationFailed? && r.staging.Some? ==> Preserved(m.sys.dir, doc, r.staging.value))
    && (r.Refused? ==> Final in m.sys.dir.visible)
    && (r.Refused? || r.PublicationFailed? ==> p in m.sys.procs && m.sys.procs[p].Ended?)
    && (r.Done? ==> !CutShort(w) && forall k | 2 <= k <= 6 :: w.faults(k).Fine?)
    && (r.PublicationFailed? && !w.check.Cut? ==> r.cause == OsFailure || exists k :: 1 <= k <= 8 && Raised(w.faults(k)) == Some(r.cause))
  }

  /** `_publish_immutable_json`, whatever happens around it. */
  method PublishImmutableJson(m: Machine, p: Pid, doc: Bytes, w: Weather) returns (r: Outcome)
    requires m.Valid() && p in m.sys.procs && m.sys.procs[p] == Checking(Evidence, doc)
    modifies m
    ensures m.Valid() && m.origin == old(m.origin)
    // normal return: durable, complete, and this call's own document
    ensures r.Done? ==>
              && Stages(m.sys, p, doc, w.tag, Returned)
              && Holds(m.sys.dir, doc)
    // uncertain: two names of one complete inode are preserved, one of them durable
    ensures r.DurabilityUncertain? ==> Final in m.sys.dir.durable || Backs(m.sys.dir, r.tag)
    // failed: staging evidence reported as preserved is there and complete
    ensures r.PublicationFailed? && r.staging.Some? ==> Preserved(m.sys.dir, doc, r.staging.value)
    // refused: somebody's complete evidence is in the way
    ensures r.Refused? ==> FinalReadable(m.sys.dir) && m.sys.dir.files[m.sys.dir.visible[Final]].Complete()
    ensures r.Refused? || r.PublicationFailed? ==> p in m.sys.procs && m.sys.procs[p].Ended?
    // a normal return means that nothing failed up to the durable link, and a failure is one that happened
    ensures r.Done? ==> !CutShort(w) && Lands(w)
    ensures r.PublicationFailed? && !w.check.Cut? ==> r.cause == OsFailure || exists k :: 1 <= k <= 8 && Raised(w.faults(k)) == Some(r.cause)
    // alone, the schedule decides the outcome
    ensures old(Alone(w) && Final in m.sys.dir.visible) ==> r.Refused?
    ensures old(Unopposed(m, w) && Free(m, w)) ==> r == Sequel(w)
    // behind the durable link nothing takes the document away
    ensures old(Unopposed(m, w) && Free(m, w)) && Lands(w) ==> Holds(m.sys.dir, doc)
    // no failure takes the last durable name away from a visible final name
    ensures m.sys.sound ==> FinalBacked(m.sys.dir)
  {
    m.Others(p, w.others(0));
    m.Do(Check(p));
    if m.sys.procs[p].Ended? {
      r := Refused;
    } else {
      r := StageAndPublish(m, p, doc, w);
    }
    WhatSettlesMeans(m, p, doc, w, r);
  }

  lemma WhatSettlesMeans(m: Machine, p: Pid, doc: Bytes, w: Weather, r: Outcome)
    requires m.Valid() && Settles(m, p, doc, w, r)
    ensures r.Done? ==> Holds(m.sys.dir, doc)
    ensures r.DurabilityUncertain? ==> Final in m.sys.dir.durable || Backs(m.sys.dir, r.tag)
    ensures r.Refused? ==> FinalReadable(m.sys.dir) && m.sys.dir.files[m.sys.dir.visible[Final]].Complete()
    ensures m.sys.sound ==> FinalBacked(m.sys.dir)
  {
    RunKeepsInv(m.origin, m.history, m.sys);
    match r
    case Done => ReturnedMeansDurable(m, p);
    case DurabilityUncertain(_) => UncertainKeepsBothNames(m.origin, m.history, m.sys, p);
    case Refused => FinalIsComplete(m);
    case PublicationFailed(_, _) =>
  }

  /** From the creation of the staging file on. */
  method StageAndPublish(m: Machine, p: Pid, doc: Bytes, w: Weather) returns (r: Outcome)
    requires m.Valid() && p in m.sys.procs && m.sys.procs[p] == Creating(Evidence, doc)
    modifies m
    ensures m.Valid() && m.origin == old(m.origin) && Settles(m, p, doc, w, r)
    ensures r.Done? ==> w.faults(1).Fine?
    ensures old(Unopposed(m, w) && Free(m, w)) ==> r == Sequel(w)
    ensures old(Unopposed(m, w) && Free(m, w)) && Lands(w) ==> Holds(m.sys.dir, doc)
  {
    var failure := CreateStaging(m, p, doc, w);
    if failure.Some? {
      r := PublicationFailed(failure.value, None);
    } else {
      r := PublishStaged(m, p, doc, w);
    }
  }

  /** From the new staging file on. */
  method PublishStaged(m: Machine, p: Pid, doc: Bytes, w: Weather) returns (r: Outcome)
    requires m.Valid() && Stages(m.sys, p, doc, w.tag, Writing)
    modifies m
    ensures m.Valid() && m.origin == old(m.origin) && Settles(m, p, doc, w, r)
    ensures old(Unopposed(m, w)) ==> r == Continued(w)
    ensures old(Unopposed(m, w)) && Lands(w) ==> Holds(m.sys.dir, doc)
  {
    var failure := FillStaging(m, p, doc, w);
    if failure.Some? {
      r := HandleFailure(m, p, doc, false, false, failure.value, w);
    } else {
      r := PublishFilled(m, p, doc, w);
    }
  }

  /** From the complete staging file on. */
  method PublishFilled(m: Machine, p: Pid, doc: Bytes, w: Weather) returns (r: Outcome)
    requires m.Valid() && Stages(m.sys, p, doc, w.tag, Synced) && w.faults(2).Fine? && w.faults(3).Fine?
    modifies m
    ensures m.Valid() && m.origin == old(m.origin) && Settles(m, p, doc, w, r)
    ensures old(Unopposed(m, w)) ==> r == Continued(w)
    ensures old(Unopposed(m, w)) && Lands(w) ==> Holds(m.sys.dir, doc)
  {
    var failure := SecureStaging(m, p, doc, w);
    if failure.Some? {
      r := HandleFailure(m, p, doc, false, true, failure.value, w);
    } else {
      r := PublishSecured(m, p, doc, w);
    }
  }

  /** From the durable staging file on. */
  method PublishSecured(m: Machine, p: Pid, doc: Bytes, w: Weather) returns (r: Outcome)
    requires m.Valid() && Stages(m.sys, p, doc, w.tag, Backed) && forall k | 2 <= k <= 4 :: w.faults(k).Fine?
    modifies m
    ensures m.Valid() && m.origin == old(m.origin) && Settles(m, p, doc, w, r)
    ensures old(Unopposed(m, w)) ==> r == Continued(w)
    ensures old(Unopposed(m, w)) && Lands(w) ==> Holds(m.sys.dir, doc)
  {
    var linked, failure := LinkDocument(m, p, doc, w);
    if failure.None? {
      r := SweepStaging(m, p, doc, w);
    } else {
      r := HandleFailure(m, p, doc, linked, true, failure.value, w);
    }
  }

  /** The launch barrier of `execute_payload`: the scientific child is started only behind this
      executor's own durable launch receipt - and then it is the only child there ever was. */
  method LaunchChild(m: Machine, p: Pid, doc: Bytes, popen: bool, w: Weather) returns (started: bool, r: Outcome)
    requires m.Valid() && p in m.sys.procs && m.sys.procs[p] == Checking(Evidence, doc)
    modifies m
    ensures m.Valid() && m.origin == old(m.origin)
    ensures started <==> r.Done? && popen
    ensures old(Unopposed(m, w) && Free(m, w)) ==> r == Sequel(w)
    ensures started ==> m.sys.children == [doc]
    ensures started ==> Holds(m.sys.dir, doc)
  {
    r := PublishImmutableJson(m, p, doc, w);
    started := false;
    if r.Done? {
      m.Others(p, w.others(11));
      m.Do(Start(p, popen));
      started := popen;
      RunKeepsInv(m.origin, m.history, m.sys);
    }
  }

  // ---------------------------------------------------------------- confirming evidence for a read

  ghost predicate Faultless(w: Weather) {
    forall k :: w.faults(k).Fine?
  }

  predicate Reads(s: Sys, p: Pid, saw: bool, read: ReadStep) {
    p in s.procs && s.procs[p] == Reader(saw, read)
  }

  predicate Links(d: Directory, tag: nat, inode: Inode) {
    Staging(tag) in d.visible && d.visible[Staging(tag)] == inode
  }

  /** Opening every companion and comparing it with the final file. */
  method CompareCompanions(m: Machine, p: Pid, saw: bool, found: set<nat>, inode: Inode, w: Weather) returns (ok: bool)
    requires m.Valid() && Reads(m.sys, p, saw, Comparing(found, found, inode))
    modifies m
    ensures m.Valid() && m.origin == old(m.origin)
    ensures ok ==> Reads(m.sys, p, saw, Comparing(found, {}, inode))
    ensures Alone(w) ==> m.sys.dir == old(m.sys.dir) && (ok <==> forall t <- found :: Links(old(m.sys.dir), t, inode))
  {
    var todo := found;
    var k := 20;
    while todo != {}
      invariant m.Valid() && m.origin == old(m.origin)
      invariant Reads(m.sys, p, saw, Comparing(found, todo, inode))
      invariant todo <= found
      invariant Alone(w) ==> m.sys.dir == old(m.sys.dir) && forall t <- found - todo :: Links(old(m.sys.dir), t, inode)
      decreases |todo|
    {
      var t :| t in todo;
      ok := OpenOne(m, p, saw, found, todo, inode, t, w.others(k));
      if !ok {
        return;
      }
      todo, k := todo - {t}, k + 1;
    }
    ok := true;
  }

  /** One companion is opened; it has to be the final file. */
  method OpenOne(m: Machine, p: Pid, saw: bool, found: set<nat>, todo: set<nat>, inode: Inode, t: nat, others: seq<Action>) returns (ok: bool)
    requires m.Valid() && Reads(m.sys, p, saw, Comparing(found, todo, inode)) && t in todo
    modifies m
    ensures m.Valid() && m.origin == old(m.origin)
    ensures ok ==> Reads(m.sys, p, saw, Comparing(found, todo - {t}, inode))
    ensures others == [] ==> m.sys.dir == old(m.sys.dir) && (ok <==> Links(old(m.sys.dir), t, inode))
  {
    m.Others(p, others);
    m.Do(OpenCompanion(p, t));
    ok := m.sys.procs[p].Reader?;
  }

  /** Removing the companions that are still links of the final file: best effort. */
  method CleanCompanions(m: Machine, p: Pid, saw: bool, found: set<nat>, w: Weather)
    requires m.Valid() && Reads(m.sys, p, saw, Cleaning(found))
    modifies m
    ensures m.Valid() && m.origin == old(m.origin)
    ensures Reads(m.sys, p, saw, Cleaning({}))
    ensures old(Alone(w) && Faultless(w) && forall t <- found :: SameFile(m.sys.dir, t)) ==> forall t <- found :: Staging(t) !in m.sys.dir.visible
  {
    var left := found;
    var k := 40;
    while left != {}
      invariant m.Valid() && m.origin == old(m.origin)
      invariant Reads(m.sys, p, saw, Cleaning(left))
      invariant old(Alone(w) && Faultless(w) && forall t <- found :: SameFile(m.sys.dir, t)) ==>
                  && (forall t <- left :: SameFile(m.sys.dir, t)) && (forall t <- found - left :: Staging(t) !in m.sys.dir.visible)
      decreases |left|
    {
      var t :| t in left;
      CleanOne(m, p, saw, left, t, k, w);
      left, k := left - {t}, k + 2;
    }
  }

  /** One companion is removed if it is still a link of the final file. */
  method CleanOne(m: Machine, p: Pid, saw: bool, left: set<nat>, t: nat, k: nat, w: Weather)
    requires m.Valid() && Reads(m.sys, p, saw, Cleaning(left)) && t in left
    modifies m
    ensures m.Valid() && m.origin == old(m.origin)
    ensures Reads(m.sys, p, saw, Cleaning(left - {t}))
    ensures Alone(w) ==>
              m.sys.dir == if SameFile(old(m.sys.dir), t) && w.faults(k).Fine? then Drop(old(m.sys.dir), Staging(t)) else old(m.sys.dir)
  {
    m.Others(p, w.others(k));
    m.Do(CheckCompanion(p, t));
    if m.sys.procs[p].read.Removing? {
      m.Others(p, w.others(k + 1));
      m.Do(RemoveCompanion(p, w.faults(k).Fine?));
    }
  }

  /** `confirm_immutable_evidence_for_read`: after a normal return that found any companion, or
      that started with a visible final name, the final name is durable. */
  method ConfirmForRead(m: Machine, p: Pid, w: Weather) returns (ok: bool, companions: set<nat>)
    requires m.Valid() && p !in m.sys.procs
    modifies m
    ensures m.Valid() && m.origin == old(m.origin)
    ensures ok && companions != {} ==> Final in m.sys.dir.durable
    ensures ok && old(Final in m.sys.dir.visible) && m.sys.sound ==> Final in m.sys.dir.durable
    // alone, evidence is confirmed exactly if every companion is a link of the final file and the sync comes off
    ensures Alone(w) ==>
              (ok <==> companions == {} || (w.faults(2).Fine? && forall t <- companions :: SameFile(old(m.sys.dir), t)))
    // ... and if nothing fails no companion is left
    ensures Alone(w) && Faultless(w) && ok ==> forall t <- companions :: Staging(t) !in m.sys.dir.visible
    ensures Alone(w) ==> companions == w.companions + set n | n in old(m.sys.dir).visible && n.Staging? :: n.tag
  {
    var saw := Final in m.sys.dir.visible;
    m.Do(SpawnReader(p));
    var present := m.sys.procs[p].read.present;
    m.Others(p, w.others(0));
    companions := w.companions + set t | t in present && Staging(t) in m.sys.dir.visible;
    m.Do(Scan(p, companions));
    if companions == {} {
      if saw && m.sys.sound {
        ReaderLeavesFinalDurable(m.origin, m.history, m.sys, p);
      }
      return true, companions;
    }
    ok := ConfirmCompanions(m, p, saw, companions, w);
  }

  /** Compare the companions with the final file, sync, clean up. */
  method ConfirmCompanions(m: Machine, p: Pid, saw: bool, companions: set<nat>, w: Weather) returns (ok: bool)
    requires m.Valid() && Reads(m.sys, p, saw, Opening(companions)) && companions != {}
    modifies m
    ensures m.Valid() && m.origin == old(m.origin)
    ensures ok ==> Final in m.sys.dir.durable
    ensures Alone(w) ==> (ok <==> w.faults(2).Fine? && forall t <- companions :: SameFile(old(m.sys.dir), t))
    ensures Alone(w) && Faultless(w) && ok ==> forall t <- companions :: Staging(t) !in m.sys.dir.visible
  {
    m.Others(p, w.others(1));
    m.Do(OpenFinal(p));
    if m.sys.procs[p].Ended? {
      ghost var t :| t in companions;
      return false;
    }
    ghost var inode := m.sys.procs[p].read.inode;
    assert Alone(w) ==> forall t <- companions :: Links(m.sys.dir, t, inode) <==> SameFile(m.sys.dir, t);
    ok := CompareCompanions(m, p, saw, companions, m.sys.procs[p].read.inode, w);
    if ok {
      ok := SyncAndClean(m, p, saw, companions, w);
    }
  }

  lemma CleaningMeansDurable(m: Machine, p: Pid)
    requires m.Valid() && p in m.sys.procs && m.sys.procs[p].Reader? && m.sys.procs[p].read.Cleaning?
    ensures Final in m.sys.dir.durable
  {
    RunKeepsInv(m.origin, m.history, m.sys);
  }

  /** The directory sync that confirms the final name, then the cleanup. */
  method SyncAndClean(m: Machine, p: Pid, saw: bool, companions: set<nat>, w: Weather) returns (ok: bool)
    requires m.Valid() && p in m.sys.procs && m.sys.procs[p].Reader? && m.sys.procs[p].read.Comparing?
    requires Reads(m.sys, p, saw, Comparing(companions, {}, m.sys.procs[p].read.inode))
    modifies m
    ensures m.Valid() && m.origin == old(m.origin)
    ensures ok ==> Final in m.sys.dir.durable
    ensures ok <==> w.faults(2).Fine?
    ensures !ok ==> p in m.sys.procs && m.sys.procs[p].Ended?
    ensures old(Alone(w) && Faultless(w) && forall t <- companions :: SameFile(m.sys.dir, t)) ==>
              forall t <- companions :: Staging(t) !in m.sys.dir.visible
  {
    m.Others(p, w.others(2));
    if w.faults(2).Fails? {
      m.Do(SyncDirFails(p, w.faults(2).picked, OsFailure));
      return false;
    }
    m.Do(SyncDir(p));
    CleanCompanions(m, p, saw, companions, w);
    SettleCleanup(m, p, saw, w);
    return true;
  }

  /** The directory sync behind the cleanup, whose failure does not matter. */
  method SettleCleanup(m: Machine, p: Pid, saw: bool, w: Weather)
    requires m.Valid() && Reads(m.sys, p, saw, Cleaning({}))
    modifies m
    ensures m.Valid() && m.origin == old(m.origin) && Final in m.sys.dir.durable
    ensures Alone(w) ==> m.sys.dir.visible == old(m.sys.dir.visible)
    ensures Alone(w) && w.faults(3).Fine? ==> m.sys.dir.durable == m.sys.dir.visible
    ensures Reads(m.sys, p, saw, Confirmed)
  {
    m.Others(p, w.others(3));
    if w.faults(3).Fails? {
      m.Do(SyncDirFails(p, w.faults(3).picked, OsFailure));
    } else {
      m.Do(SyncDir(p));
    }
    CleaningMeansDurable(m, p);
    m.Do(Finish(p));
  }
}
