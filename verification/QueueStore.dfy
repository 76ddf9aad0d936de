/**
 `V5QueueStore.initialize`: creating a fresh queue database, or joining the one that is there.
 */
module QueueStore {
  import opened FileSystem
  import opened Publication
  import opened PublicationInvariant
  import opened PublicationTheorems
  import opened Machines

  /** A private candidate database of instance `doc` under the staging name `tag`. */
  ghost predicate Builds(s: Sys, p: Pid, doc: Bytes, tag: nat, stage: Stage) {
    At(s, p, stage) && s.procs[p].role.Store? && s.procs[p].doc == doc && s.procs[p].tag == tag
  }

  predicate Joins(s: Sys, p: Pid, join: JoinStep) {
    p in s.procs && s.procs[p] == Joiner(join)
  }

  /** The call has returned normally with this instance. */
  ghost predicate Bound(s: Sys, id: Bytes) {
    s.bound != [] && s.bound[|s.bound| - 1] == id
  }

  lemma JoinReadable(m: Machine, p: Pid, join: JoinStep)
    requires m.Valid() && Joins(m.sys, p, join)
    ensures FinalReadable(m.sys.dir)
  {
    RunKeepsInv(m.origin, m.history, m.sys);
  }

  /** A visible database is validated, synced and adopted. */
  method JoinExisting(m: Machine, p: Pid, w: Weather) returns (id: Option<Bytes>)
    requires m.Valid() && Joins(m.sys, p, ReadThenSync)
    modifies m
    ensures m.Valid() && m.origin == old(m.origin)
    ensures id.Some? ==> Bound(m.sys, id.value)
    ensures id == if w.faults(1).Fine? && w.faults(2).Fine? then old(Instance(m.sys.dir)) else None
    ensures id.None? ==> p in m.sys.procs && m.sys.procs[p].Ended?
  {
    JoinReadable(m, p, ReadThenSync);
    m.Others(p, w.others(1));
    JoinReadable(m, p, ReadThenSync);
    if w.faults(1).Fails? {
      m.Do(OtherFails(p, OsFailure));
      id := None;
    } else {
      m.Do(ReadFinal(p));
      id := SyncJoined(m, p, w);
    }
  }

  /** The instance of the database under the final name. */
  function Instance(d: Directory): Option<Bytes> {
    if FinalFile(d).Some? then Some(FinalFile(d).value.data) else None
  }

  /** The sync behind the validated database. */
  method SyncJoined(m: Machine, p: Pid, w: Weather) returns (id: Option<Bytes>)
    requires m.Valid() && p in m.sys.procs && m.sys.procs[p].Joiner? && m.sys.procs[p].join.SyncAfterRead?
    modifies m
    ensures m.Valid() && m.origin == old(m.origin)
    ensures id.Some? ==> Bound(m.sys, id.value)
    ensures id == if w.faults(2).Fine? then Some(old(m.sys.procs[p].join.id)) else None
    ensures id.None? ==> p in m.sys.procs && m.sys.procs[p].Ended?
  {
    m.Others(p, w.others(2));
    if w.faults(2).Fails? {
      m.Do(SyncDirFails(p, w.faults(2).picked, OsFailure));
      id := None;
    } else {
      id := Some(m.sys.procs[p].join.id);
      m.Do(SyncDir(p));
    }
  }

  /** The race was lost: drop the candidate, sync, then validate and adopt the winner. */
  method JoinWinner(m: Machine, p: Pid, doc: Bytes, w: Weather) returns (id: Option<Bytes>, dropped: bool)
    requires m.Valid() && Builds(m.sys, p, doc, w.tag, Adopting)
    modifies m
    ensures m.Valid() && m.origin == old(m.origin)
    ensures id.Some? ==> Bound(m.sys, id.value)
    ensures !dropped ==> id.None? && Builds(m.sys, p, doc, w.tag, Failing(false, false, true, OsFailure))
    ensures dropped == w.faults(12).Fine?
    ensures id == if w.faults(12).Fine? && w.faults(13).Fine? && w.faults(14).Fine? then old(Instance(m.sys.dir)) else None
    ensures dropped && id.None? ==> p in m.sys.procs && m.sys.procs[p].Ended?
  {
    AdoptingSeesFinal(m, p);
    id := None;
    m.Others(p, w.others(12));
    dropped := w.faults(12).Fine?;
    m.Do(Unlink(p, dropped));
    if dropped {
      id := AdoptWinner(m, p, w);
    }
  }

  lemma AdoptingSeesFinal(m: Machine, p: Pid)
    requires m.Valid() && At(m.sys, p, Adopting)
    ensures FinalReadable(m.sys.dir)
  {
    RunKeepsInv(m.origin, m.history, m.sys);
  }

  /** Sync, then validate the winner. */
  method AdoptWinner(m: Machine, p: Pid, w: Weather) returns (id: Option<Bytes>)
    requires m.Valid() && Joins(m.sys, p, SyncThenRead)
    modifies m
    ensures m.Valid() && m.origin == old(m.origin)
    ensures id.Some? ==> Bound(m.sys, id.value)
    ensures id == if w.faults(13).Fine? && w.faults(14).Fine? then old(Instance(m.sys.dir)) else None
    ensures id.None? ==> p in m.sys.procs && m.sys.procs[p].Ended?
  {
    JoinReadable(m, p, SyncThenRead);
    m.Others(p, w.others(13));
    if w.faults(13).Fails? {
      m.Do(SyncDirFails(p, w.faults(13).picked, OsFailure));
      id := None;
    } else {
      m.Do(SyncDir(p));
      id := ReadWinner(m, p, w);
    }
  }

  method ReadWinner(m: Machine, p: Pid, w: Weather) returns (id: Option<Bytes>)
    requires m.Valid() && Joins(m.sys, p, ReadAfterSync)
    modifies m
    ensures m.Valid() && m.origin == old(m.origin)
    ensures id.Some? ==> Bound(m.sys, id.value)
    ensures id == if w.faults(14).Fine? then old(Instance(m.sys.dir)) else None
    ensures id.None? ==> p in m.sys.procs && m.sys.procs[p].Ended?
  {
    JoinReadable(m, p, ReadAfterSync);
    m.Others(p, w.others(14));
    JoinReadable(m, p, ReadAfterSync);
    if w.faults(14).Fails? {
      m.Do(OtherFails(p, OsFailure));
      id := None;
    } else {
      m.Do(ReadFinal(p));
      id := Some(m.sys.procs[p].join.id);
    }
  }

  /** Nobody else acts, and no database is there. */
  ghost predicate Untouched(m: Machine, w: Weather)
    reads m
  {
    Alone(w) && Final !in m.sys.dir.visible
  }

  /** The candidate name and inode the system picks are unused. */
  ghost predicate Unused(m: Machine, w: Weather)
    reads m
  {
    Staging(w.tag) !in m.sys.dir.visible && w.inode !in m.sys.dir.files
  }

  /** Reserving the private candidate. */
  method ReserveCandidate(m: Machine, p: Pid, doc: Bytes, w: Weather) returns (ok: bool)
    requires m.Valid() && p in m.sys.procs && m.sys.procs[p] == Creating(Store, doc)
    modifies m
    ensures m.Valid() && m.origin == old(m.origin)
    ensures ok ==> Builds(m.sys, p, doc, w.tag, Writing)
    ensures ok ==> w.faults(3).Fine? && w.faults(4).Fine?
    ensures !ok ==> p in m.sys.procs && m.sys.procs[p].Ended?
    ensures Alone(w) && ok ==> m.sys.dir.durable == old(m.sys.dir.visible)
    ensures old(Alone(w) && Unused(m, w)) ==> (ok <==> w.faults(3).Fine? && w.faults(4).Fine?)
    ensures old(Untouched(m, w)) ==> Untouched(m, w)
  {
    m.Others(p, w.others(3));
    if w.faults(3).Fails? {
      m.Do(SyncDirFails(p, w.faults(3).picked, OsFailure));
      return false;
    }
    m.Do(SyncDir(p));
    m.Others(p, w.others(4));
    if w.faults(4).Fails? || Staging(w.tag) in m.sys.dir.visible || w.inode in m.sys.dir.files {
      m.Do(OtherFails(p, OsFailure));
      return false;
    }
    m.Do(Create(p, w.tag, w.inode));
    return true;
  }

  /** Building the complete database in the candidate and making its name durable. */
  method BuildCandidate(m: Machine, p: Pid, doc: Bytes, w: Weather) returns (failure: Option<Cause>)
    requires m.Valid() && Builds(m.sys, p, doc, w.tag, Writing)
    modifies m
    ensures m.Valid() && m.origin == old(m.origin)
    ensures failure.None? ==> Builds(m.sys, p, doc, w.tag, Synced)
    ensures failure.Some? ==> Builds(m.sys, p, doc, w.tag, Failing(false, false, false, failure.value))
    ensures failure.None? <==> w.faults(5).Fine? && w.faults(6).Fine?
    ensures old(Untouched(m, w)) ==> Untouched(m, w)
  {
    m.Others(p, w.others(5));
    WritePossible(m, p);
    if w.faults(5).Fails? {
      failure := Some(CauseOf(w.faults(5)));
      m.Do(OtherFails(p, failure.value));
      return;
    }
    m.Do(Write(p, doc));
    failure := SyncCandidate(m, p, doc, w);
  }

  /** Syncing the written candidate. */
  method SyncCandidate(m: Machine, p: Pid, doc: Bytes, w: Weather) returns (failure: Option<Cause>)
    requires m.Valid() && Builds(m.sys, p, doc, w.tag, Written)
    modifies m
    ensures m.Valid() && m.origin == old(m.origin)
    ensures failure.None? ==> Builds(m.sys, p, doc, w.tag, Synced)
    ensures failure.Some? ==> Builds(m.sys, p, doc, w.tag, Failing(false, false, false, failure.value))
    ensures failure.None? <==> w.faults(6).Fine?
    ensures old(Untouched(m, w)) ==> Untouched(m, w)
  {
    m.Others(p, w.others(6));
    WritePossible(m, p);
    if w.faults(6).Fails? {
      failure := Some(CauseOf(w.faults(6)));
      m.Do(OtherFails(p, failure.value));
      return;
    }
    m.Do(SyncFile(p));
    failure := None;
  }

  method SecureCandidate(m: Machine, p: Pid, doc: Bytes, w: Weather) returns (failure: Option<Cause>)
    requires m.Valid() && Builds(m.sys, p, doc, w.tag, Synced)
    modifies m
    ensures m.Valid() && m.origin == old(m.origin)
    ensures failure.None? ==> Builds(m.sys, p, doc, w.tag, Backed)
    ensures failure.Some? ==> Builds(m.sys, p, doc, w.tag, Failing(false, false, true, failure.value))
    ensures failure.None? <==> w.faults(7).Fine?
    ensures old(Untouched(m, w)) ==> Untouched(m, w)
  {
    m.Others(p, w.others(7));
    if w.faults(7).Fails? {
      failure := Some(CauseOf(w.faults(7)));
      m.Do(SyncDirFails(p, w.faults(7).picked, failure.value));
    } else {
      failure := None;
      m.Do(SyncDir(p));
    }
  }

  /** The no-clobber link and the sync that settles it; `lost` when another instance was first. */
  method LinkCandidate(m: Machine, p: Pid, doc: Bytes, w: Weather) returns (lost: bool, published: bool, failure: Option<Cause>)
    requires m.Valid() && Builds(m.sys, p, doc, w.tag, Backed)
    modifies m
    ensures m.Valid() && m.origin == old(m.origin)
    ensures lost ==> Builds(m.sys, p, doc, w.tag, Adopting)
    ensures !lost && failure.None? ==> Builds(m.sys, p, doc, w.tag, Settled)
    ensures !lost && failure.Some? ==> Builds(m.sys, p, doc, w.tag, Failing(published, false, true, failure.value))
    ensures !lost && !published ==> w.faults(8).Fails? && failure.Some?
    ensures !lost && published ==> w.faults(8).Fine? && (failure.None? <==> w.faults(9).Fine?)
    ensures old(Untouched(m, w)) ==> !lost && (failure.Some? && !published ==> (SameFile(m.sys.dir, w.tag) <==> w.faults(8).effect))
  {
    lost, published, failure := false, false, None;
    m.Others(p, w.others(8));
    LinkPossible(m, p);
    if w.faults(8).Fails? && Final !in m.sys.dir.visible {
      failure := Some(CauseOf(w.faults(8)));
      m.Do(LinkFails(p, w.faults(8).effect && Staging(w.tag) in m.sys.dir.visible, failure.value));
      return;
    }
    lost := Final in m.sys.dir.visible;
    m.Do(Link(p));
    if lost {
      return;
    }
    published := true;
    failure := SettleLink(m, p, doc, w);
  }

  /** The sync that settles the link. */
  method SettleLink(m: Machine, p: Pid, doc: Bytes, w: Weather) returns (failure: Option<Cause>)
    requires m.Valid() && Builds(m.sys, p, doc, w.tag, Linked)
    modifies m
    ensures m.Valid() && m.origin == old(m.origin)
    ensures failure.None? ==> Builds(m.sys, p, doc, w.tag, Settled)
    ensures failure.Some? ==> Builds(m.sys, p, doc, w.tag, Failing(true, false, true, failure.value))
    ensures failure.None? <==> w.faults(9).Fine?
  {
    m.Others(p, w.others(9));
    if w.faults(9).Fails? {
      failure := Some(CauseOf(w.faults(9)));
      m.Do(SyncDirFails(p, w.faults(9).picked, failure.value));
    } else {
      m.Do(SyncDir(p));
      failure := None;
    }
  }

  /** Dropping the candidate name of a settled database. */
  method SweepCandidate(m: Machine, p: Pid, doc: Bytes, w: Weather) returns (failure: Option<Cause>)
    requires m.Valid() && Builds(m.sys, p, doc, w.tag, Settled)
    modifies m
    ensures m.Valid() && m.origin == old(m.origin)
    ensures failure.None? ==> Bound(m.sys, doc)
    ensures failure.Some? ==> Builds(m.sys, p, doc, w.tag, Failing(true, true, true, failure.value))
    ensures failure.None? <==> w.faults(10).Fine? && w.faults(11).Fine?
  {
    m.Others(p, w.others(10));
    m.Do(Unlink(p, w.faults(10).Fine?));
    if w.faults(10).Fails? {
      failure := Some(OsFailure);
    } else {
      failure := SettleSweep(m, p, doc, w);
    }
  }

  /** The sync behind the dropped candidate name. */
  method SettleSweep(m: Machine, p: Pid, doc: Bytes, w: Weather) returns (failure: Option<Cause>)
    requires m.Valid() && Builds(m.sys, p, doc, w.tag, Swept)
    modifies m
    ensures m.Valid() && m.origin == old(m.origin)
    ensures failure.None? ==> Bound(m.sys, doc)
    ensures failure.Some? ==> Builds(m.sys, p, doc, w.tag, Failing(true, true, true, failure.value))
    ensures failure.None? <==> w.faults(11).Fine?
  {
    m.Others(p, w.others(11));
    if w.faults(11).Fails? {
      failure := Some(CauseOf(w.faults(11)));
      m.Do(SyncDirFails(p, w.faults(11).picked, failure.value));
    } else {
      m.Do(SyncDir(p));
      failure := None;
    }
  }

  /** The exception handler of `initialize`: indeterminate, or an ordinary error after cleanup. */
  method HandleFailure(m: Machine, p: Pid, doc: Bytes, stage: Stage, w: Weather) returns (indeterminate: bool)
    requires m.Valid() && stage.Failing? && Builds(m.sys, p, doc, w.tag, stage)
    modifies m
    ensures m.Valid() && m.origin == old(m.origin)
    ensures indeterminate ==> Builds(m.sys, p, doc, w.tag, Uncertain)
    ensures stage.linked && !stage.settled && !w.check.Cut? ==> indeterminate
    ensures indeterminate ==> !w.check.Cut? && !stage.settled && (stage.linked || w.check.Sees?)
    ensures !indeterminate ==> p in m.sys.procs && m.sys.procs[p].Ended?
    ensures Alone(w) && !indeterminate && !w.check.Cut? && w.faults(16).Fine? ==> Staging(w.tag) !in m.sys.dir.visible
    ensures Alone(w) && !stage.settled && !stage.linked && !w.check.Cut? ==>
              (indeterminate <==> w.check.Sees? && SameFile(old(m.sys.dir), w.tag))
  {
    m.Others(p, w.others(15));
    m.Do(Inspect(p, w.check));
    indeterminate := At(m.sys, p, Uncertain);
    if !indeterminate && !w.check.Cut? {
      m.Others(p, w.others(16));
      m.Do(Unlink(p, w.faults(16).Fine?));
    }
  }

  datatype InitResult = Ready | Indeterminate | InitFailed

  /** The outcome of an unopposed initialisation without a database, by the first operation that fails. */
  function Sequel(w: Weather): InitResult {
    if w.faults(3).Fails? || w.faults(4).Fails? || w.faults(5).Fails? || w.faults(6).Fails? then InitFailed else Continued(w)
  }

  function Continued(w: Weather): InitResult {
    if w.faults(7).Fails? then InitFailed
    else if w.faults(8).Fails? then if w.faults(8).effect && w.check.Sees? then Indeterminate else InitFailed
    else if w.faults(9).Fails? then if w.check.Cut? then InitFailed else Indeterminate
    else if w.faults(10).Fails? || w.faults(11).Fails? then InitFailed
    else Ready
  }

  class V5QueueStore {
    var expectedInstance: Option<Bytes>

    constructor ()
      ensures expectedInstance == None
    {
      expectedInstance := None;
    }

    /** This object is bound to that instance, or to none. */
    predicate Accepts(id: Option<Bytes>)
      reads this
    {
      expectedInstance == None || expectedInstance == id
    }

    /** `_bind_instance_identity`: the first binding stays; any other instance is refused. */
    method BindInstanceIdentity(id: Bytes) returns (ok: bool)
      modifies this
      ensures ok <==> old(expectedInstance) in {None, Some(id)}
      ensures expectedInstance == if ok then Some(id) else old(expectedInstance)
    {
      if expectedInstance == None {
        expectedInstance := Some(id);
      }
      ok := expectedInstance == Some(id);
    }

    /** Creating the database, or losing the race to create it. */
    method CreateFresh(m: Machine, p: Pid, doc: Bytes, w: Weather) returns (r: InitResult, id: Bytes)
      requires m.Valid() && p in m.sys.procs && m.sys.procs[p] == Creating(Store, doc)
      modifies m
      ensures m.Valid() && m.origin == old(m.origin)
      ensures r.Ready? ==> Bound(m.sys, id)
      ensures r.Indeterminate? ==> Builds(m.sys, p, doc, w.tag, Uncertain)
      ensures r.InitFailed? ==> p in m.sys.procs && m.sys.procs[p].Ended?
      ensures old(Untouched(m, w) && Unused(m, w)) ==> r == Sequel(w) && (r.Ready? ==> id == doc)
    {
      r, id := InitFailed, [];
      var ok := ReserveCandidate(m, p, doc, w);
      if ok {
        var failure := BuildCandidate(m, p, doc, w);
        if failure.Some? {
          var indeterminate := HandleFailure(m, p, doc, Failing(false, false, false, failure.value), w);
          r := if indeterminate then Indeterminate else InitFailed;
        } else {
          r, id := SecureAndPublish(m, p, doc, w);
        }
      }
    }

    /** From the complete candidate on. */
    method SecureAndPublish(m: Machine, p: Pid, doc: Bytes, w: Weather) returns (r: InitResult, id: Bytes)
      requires m.Valid() && Builds(m.sys, p, doc, w.tag, Synced)
      modifies m
      ensures m.Valid() && m.origin == old(m.origin)
      ensures r.Ready? ==> Bound(m.sys, id)
      ensures r.Indeterminate? ==> Builds(m.sys, p, doc, w.tag, Uncertain)
      ensures r.InitFailed? ==> p in m.sys.procs && m.sys.procs[p].Ended?
      ensures old(Untouched(m, w)) ==> r == Continued(w) && (r.Ready? ==> id == doc)
    {
      var settled, stage := false, Failing(false, false, true, OsFailure);
      r, id := InitFailed, [];
      var failure := SecureCandidate(m, p, doc, w);
      if failure.Some? {
        stage := Failing(false, false, true, failure.value);
      } else {
        settled, r, id, stage := PublishCandidate(m, p, doc, w);
      }
      if !settled {
        var indeterminate := HandleFailure(m, p, doc, stage, w);
        r := if indeterminate then Indeterminate else InitFailed;
      }
    }

    /** What becomes of an unopposed link: done, or which failure is to be handled. */
    ghost predicate Course(m: Machine, w: Weather, settled: bool, r: InitResult, id: Bytes, doc: Bytes, stage: Stage)
      reads m
    {
      if w.faults(8).Fails? then !settled && stage.Failing? && !stage.linked && !stage.settled && (SameFile(m.sys.dir, w.tag) <==> w.faults(8).effect)
      else if w.faults(9).Fails? then !settled && stage.Failing? && stage.linked && !stage.settled
      else if w.faults(10).Fails? || w.faults(11).Fails? then !settled && stage.Failing? && stage.settled
      else settled && r == Ready && id == doc
    }

    /** From the link to the normal return; `settled` is false when the exception handler is due. */
    method PublishCandidate(m: Machine, p: Pid, doc: Bytes, w: Weather) returns (settled: bool, r: InitResult, id: Bytes, stage: Stage)
      requires m.Valid() && Builds(m.sys, p, doc, w.tag, Backed)
      modifies m
      ensures m.Valid() && m.origin == old(m.origin)
      ensures settled ==> !r.Indeterminate? && (r.Ready? ==> Bound(m.sys, id))
      ensures !settled ==> stage.Failing? && Builds(m.sys, p, doc, w.tag, stage)
      ensures settled && !r.Ready? ==> p in m.sys.procs && m.sys.procs[p].Ended?
      ensures old(Untouched(m, w)) ==> Course(m, w, settled, r, id, doc, stage)
    {
      settled, r, id := true, InitFailed, doc;
      stage := Failing(false, false, true, OsFailure);
      var lost, published, failure := LinkCandidate(m, p, doc, w);
      if lost {
        var winner, dropped := JoinWinner(m, p, doc, w);
        settled := dropped;
        if winner.Some? {
          r, id := Ready, winner.value;
        }
      } else if failure.Some? {
        settled, stage := false, Failing(published, false, true, failure.value);
      } else {
        failure := SweepCandidate(m, p, doc, w);
        if failure.None? {
          r := Ready;
        } else {
          settled, stage := false, Failing(true, true, true, failure.value);
        }
      }
    }

    /** A database that is there is joined; otherwise one is created. */
    method JoinOrCreate(m: Machine, p: Pid, doc: Bytes, w: Weather) returns (r: InitResult, id: Bytes)
      requires m.Valid() && p in m.sys.procs && m.sys.procs[p] == Checking(Store, doc)
      modifies m
      ensures m.Valid() && m.origin == old(m.origin)
      ensures r.Ready? ==> Bound(m.sys, id)
      ensures r.Indeterminate? ==> Builds(m.sys, p, doc, w.tag, Uncertain)
      ensures old(Final in m.sys.dir.visible) ==>
                && r == (if w.faults(1).Fine? && w.faults(2).Fine? then Ready else InitFailed)
                && (r.Ready? ==> Some(id) == old(Instance(m.sys.dir)))
      ensures r.InitFailed? ==> p in m.sys.procs && m.sys.procs[p].Ended?
      ensures old(Untouched(m, w) && Unused(m, w)) ==> r == Sequel(w) && (r.Ready? ==> id == doc)
    {
      m.Others(p, w.others(0));
      m.Do(Check(p));
      if m.sys.procs[p].Joiner? {
        JoinReadable(m, p, ReadThenSync);
        var found := JoinExisting(m, p, w);
        r := if found.Some? then Ready else InitFailed;
        id := if found.Some? then found.value else [];
      } else {
        r, id := CreateFresh(m, p, doc, w);
      }
    }

    /** `initialize`: a normal return binds this object to the one instance whose database is then
        durable under the final name; an object bound earlier is never rebound. */
    method Initialize(m: Machine, p: Pid, doc: Bytes, w: Weather) returns (r: InitResult)
      requires m.Valid() && p in m.sys.procs && m.sys.procs[p] == Checking(Store, doc)
      modifies this, m
      ensures m.Valid() && m.origin == old(m.origin)
      ensures r.Ready? ==>
                && expectedInstance.Some? && Final in m.sys.dir.durable
                && FinalFile(m.sys.dir) == Some(File(expectedInstance.value, true, expectedInstance.value))
                && forall k :: 0 <= k < |m.sys.bound| ==> m.sys.bound[k] == expectedInstance.value
      ensures old(expectedInstance).Some? ==> expectedInstance == old(expectedInstance)
      ensures !r.Ready? ==> expectedInstance == old(expectedInstance)
      ensures r.Indeterminate? ==> Final in m.sys.dir.durable || Backs(m.sys.dir, w.tag)
      // with a database there, nothing but a failure or another instance stands in the way
      ensures old(Final in m.sys.dir.visible) ==>
                r == if w.faults(1).Fine? && w.faults(2).Fine? && old(Accepts(Instance(m.sys.dir))) then Ready else InitFailed
      // without one, and nobody else acting, the schedule decides
      ensures old(Untouched(m, w) && Unused(m, w)) ==>
                r == if Sequel(w).Ready? && !old(Accepts(Some(doc))) then InitFailed else Sequel(w)
      ensures m.sys.sound ==> FinalBacked(m.sys.dir)
    {
      var id;
      r, id := JoinOrCreate(m, p, doc, w);
      if r.Indeterminate? {
        UncertainKeepsBothNames(m.origin, m.history, m.sys, p);
      }
      RunKeepsInv(m.origin, m.history, m.sys);
      if r.Ready? {
        var ok := BindInstanceIdentity(id);
        if !ok {
          r := InitFailed;
        }
      }
    }
  }
}
