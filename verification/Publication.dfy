/**
 Crash-safe publication without clobbering: the protocol shared by the executor's
 immutable evidence and by the fresh initialisation of a queue store.

 Any number of processes work in one directory.  A publisher writes a private staging
 file, syncs it, syncs the directory, hard-links the final name, syncs the directory
 again and only then drops the staging name.  Evidence readers confirm a published final
 name and clear staging leftovers.  Store initialisers that lose the race adopt the
 winner.  Steps of all processes interleave, every operation may fail, and power may be
 lost at any moment.
 */
module Publication {
  import opened FileSystem

  datatype Name = Final | Staging(tag: nat)
  type Directory = Disk<Name, Bytes>
  type Pid = nat

  /** Evidence: `_publish_immutable_json`.  Store: `V5QueueStore.initialize`. */
  datatype Role = Evidence | Store

  /** What ended a publisher's normal course. */
  datatype Cause = OsFailure | AlreadyExists | Interrupt

  datatype Stage =
    | Writing       // staging file created
    | Written       // all bytes written, not yet synced
    | Synced        // staging file synced: `complete_staging`
    | Backed        // directory synced: `staging_durable`
    | Linked        // final name linked by this process
    | Settled       // directory synced after the link: `final_durable`
    | Swept         // staging name dropped
    | Returned      // normal return
    | Failing(linked: bool, settled: bool, complete: bool, cause: Cause)
    | Aborting      // decided to drop the staging name
    | Uncertain     // durability error raised, both names preserved
    | Adopting      // store only: somebody else's final name is there

  datatype JoinStep =
    | ReadThenSync                 // final name found on entry
    | SyncAfterRead(id: Bytes)
    | SyncThenRead                 // lost the link race
    | ReadAfterSync
    | Joined(id: Bytes)

  datatype ReadStep =
    | Scanning(present: set<nat>)
    | Opening(companions: set<nat>)
    | Comparing(companions: set<nat>, todo: set<nat>, inode: Inode)
    | Cleaning(companions: set<nat>)
    | Removing(companions: set<nat>, tag: nat)
    | Confirmed

  datatype Proc =
    | Checking(role: Role, doc: Bytes)
    | Creating(role: Role, doc: Bytes)
    | Publisher(role: Role, doc: Bytes, tag: nat, inode: Inode, stage: Stage)
    | Joiner(join: JoinStep)
    | Reader(sawFinal: bool, read: ReadStep)
    | Ended

  /** `children` records the launch receipt of every executor that started its scientific
      child, `bound` the instance every normally returning initialiser was bound to.
      `sound` says that no failure handler has misjudged its own publication so far. */
  datatype Sys = Sys(dir: Directory, procs: map<Pid, Proc>, children: seq<Bytes>, bound: seq<Bytes>, sound: bool)

  /** How the identity check of a failure handler turns out: it looks, it fails, or it is interrupted. */
  datatype Check = Sees | Blind | Cut

  datatype Action =
    | Spawn(p: Pid, role: Role, doc: Bytes)
    | SpawnReader(p: Pid)
    | Check(p: Pid)
    | Create(p: Pid, tag: nat, inode: Inode)
    | Write(p: Pid, data: Bytes)
    | SyncFile(p: Pid)
    | SyncDir(p: Pid)
    | SyncDirFails(p: Pid, picked: set<Name>, cause: Cause)
    | Link(p: Pid)
    | LinkFails(p: Pid, effect: bool, cause: Cause)
    | OtherFails(p: Pid, cause: Cause)
    | Inspect(p: Pid, check: Check)
    | Unlink(p: Pid, ok: bool)
    | Start(p: Pid, ok: bool)
    | ReadFinal(p: Pid)
    | Scan(p: Pid, companions: set<nat>)
    | OpenFinal(p: Pid)
    | OpenCompanion(p: Pid, tag: nat)
    | CheckCompanion(p: Pid, tag: nat)
    | RemoveCompanion(p: Pid, ok: bool)
    | Finish(p: Pid)
    | KernelWriteback(picked: set<Name>)
    | PowerLoss(picked: set<Name>, torn: map<Inode, Bytes>)

  // ---------------------------------------------------------------- transitions

  /** Does the final name carry this very staging file?  (`os.path.samefile`) */
  predicate SameFile(d: Directory, tag: nat) {
    Final in d.visible && Staging(tag) in d.visible && d.visible[Final] == d.visible[Staging(tag)]
  }

  predicate At(s: Sys, p: Pid, stage: Stage) {
    p in s.procs && s.procs[p].Publisher? && s.procs[p].stage == stage
  }

  predicate FinalReadable(d: Directory) {
    Final in d.visible && d.visible[Final] in d.files
  }

  predicate Enabled(s: Sys, a: Action)
  {
    match a
    case Spawn(p, _, _) => p !in s.procs
    case SpawnReader(p) => p !in s.procs
    case Check(p) => p in s.procs && s.procs[p].Checking?
    case Create(p, tag, inode) =>
      && p in s.procs && s.procs[p].Creating?
      && Staging(tag) !in s.dir.visible && inode !in s.dir.files
    case Write(p, data) => At(s, p, Writing) && s.procs[p].inode in s.dir.files
    case SyncFile(p) => At(s, p, Written) && s.procs[p].inode in s.dir.files
    case SyncDir(p) => p in s.procs && CanSync(s.procs[p])
    case SyncDirFails(p, _, cause) => p in s.procs && CanSync(s.procs[p]) && !cause.AlreadyExists?
    case Link(p) => At(s, p, Backed) && (Final in s.dir.visible || Staging(s.procs[p].tag) in s.dir.visible)
    case LinkFails(p, effect, cause) =>
      && At(s, p, Backed) && !cause.AlreadyExists?
      && (effect ==> Final !in s.dir.visible && Staging(s.procs[p].tag) in s.dir.visible)
    case OtherFails(p, cause) => p in s.procs && CanFail(s.procs[p], cause) && !cause.AlreadyExists?
    case Inspect(p, _) => p in s.procs && s.procs[p].Publisher? && s.procs[p].stage.Failing?
    case Unlink(p, _) =>
      p in s.procs && s.procs[p].Publisher? && s.procs[p].stage in {Settled, Aborting, Adopting}
    case Start(p, _) => At(s, p, Returned) && s.procs[p].role.Evidence?
    case ReadFinal(p) =>
      && p in s.procs && s.procs[p].Joiner? && s.procs[p].join in {ReadThenSync, ReadAfterSync}
      && FinalReadable(s.dir)
    case Scan(p, companions) =>
      && p in s.procs && s.procs[p].Reader? && s.procs[p].read.Scanning?
      && forall t :: t in s.procs[p].read.present && Staging(t) in s.dir.visible ==> t in companions
    case OpenFinal(p) => p in s.procs && s.procs[p].Reader? && s.procs[p].read.Opening?
    case OpenCompanion(p, tag) =>
      p in s.procs && s.procs[p].Reader? && s.procs[p].read.Comparing? && tag in s.procs[p].read.todo
    case CheckCompanion(p, tag) =>
      p in s.procs && s.procs[p].Reader? && s.procs[p].read.Cleaning? && tag in s.procs[p].read.companions
    case RemoveCompanion(p, ok) => p in s.procs && s.procs[p].Reader? && s.procs[p].read.Removing?
    case Finish(p) =>
      p in s.procs && s.procs[p].Reader? && s.procs[p].read.Cleaning? && s.procs[p].read.companions == {}
    case KernelWriteback(_) => true
    case PowerLoss(_, _) => true
  }

  /** The points at which a process syncs the directory. */
  predicate CanSync(pr: Proc) {
    || (pr.Creating? && pr.role.Store?)
    || (pr.Publisher? && pr.stage in {Synced, Linked, Swept})
    || (pr.Joiner? && (pr.join.SyncAfterRead? || pr.join.SyncThenRead?))
    || (pr.Reader? && pr.read.Comparing? && pr.read.todo == {})
    || (pr.Reader? && pr.read.Cleaning? && pr.read.companions == {})
  }

  /** The points at which some other operation can fail. */
  predicate CanFail(pr: Proc, cause: Cause) {
    || pr.Checking? || pr.Creating?
    || (pr.Publisher? && pr.stage in {Writing, Written, Adopting})
    || (pr.Publisher? && pr.stage in {Settled, Swept} && (pr.role.Store? || cause.Interrupt?))
    || (pr.Joiner? && !pr.join.Joined?)
    || (pr.Reader? && !pr.read.Cleaning? && !pr.read.Confirmed?)
  }

  function Put(s: Sys, p: Pid, pr: Proc): Sys {
    s.(procs := s.procs[p := pr])
  }

  /** The process state after a successful directory sync. */
  function AfterSync(pr: Proc): Proc
    requires CanSync(pr)
  {
    match pr
    case Publisher(_, _, _, _, stage) =>
      if stage.Synced? then pr.(stage := Backed)
      else if stage.Linked? then pr.(stage := Settled)
      else pr.(stage := Returned)
    case Joiner(join) =>
      if join.SyncThenRead? then Joiner(ReadAfterSync) else Joiner(Joined(join.id))
    case Reader(saw, read) =>
      if read.Comparing? then Reader(saw, Cleaning(read.companions)) else pr
    case _ => pr
  }

  /** The process state after a directory sync that reported an error.  The last sync of an
      evidence publisher, and that of a reader which removed leftovers, are best effort. */
  function AfterFailedSync(pr: Proc, cause: Cause): Proc
    requires CanSync(pr)
  {
    match pr
    case Publisher(role, _, _, _, stage) =>
      if stage.Synced? then pr.(stage := Failing(false, false, true, cause))
      else if stage.Linked? then pr.(stage := Failing(true, false, true, cause))
      else if role.Evidence? && cause.OsFailure? then pr.(stage := Returned)
      else pr.(stage := Failing(true, true, true, cause))
    case Reader(saw, read) => if read.Cleaning? then pr else Ended
    case _ => Ended
  }

  function AfterFailure(pr: Proc, cause: Cause): Proc
    requires CanFail(pr, cause)
  {
    if pr.Publisher? then
      pr.(stage := Failing(pr.stage in {Settled, Swept}, pr.stage in {Settled, Swept},
                           pr.stage in {Settled, Swept, Adopting}, cause))
    else Ended
  }

  /** The failure handler: preserve both names while the final name may be this process's own
      and is not known durable; otherwise fail, keeping complete evidence of an I/O failure.  An interrupt of
      its identity check leaves it at once, the evidence publisher through its clean-up. */
  function AfterInspect(d: Directory, pr: Proc, check: Check): Proc
    requires pr.Publisher? && pr.stage.Failing?
  {
    var f := pr.stage;
    var published := f.linked || (check.Sees? && SameFile(d, pr.tag));
    if check.Cut? then if pr.role.Evidence? then pr.(stage := Aborting) else Ended
    else if published && !f.settled then pr.(stage := Uncertain)
    else if pr.role.Evidence? && f.complete && f.cause.OsFailure? then Ended
    else pr.(stage := Aborting)
  }

  /** The identity check itself failed or was interrupted, and the handler goes on to drop the staging name
      although the final name is this process's own and not durable. */
  predicate Misjudges(d: Directory, pr: Proc, check: Check)
    requires pr.Publisher? && pr.stage.Failing?
  {
    && !check.Sees? && SameFile(d, pr.tag) && Final !in d.durable
    && AfterInspect(d, pr, check) == pr.(stage := Aborting)
  }

  function AfterUnlink(pr: Proc, ok: bool): Proc
    requires pr.Publisher? && pr.stage in {Settled, Aborting, Adopting}
  {
    if pr.stage.Aborting? then Ended
    else if pr.stage.Settled? then
      if ok then pr.(stage := Swept)
      else if pr.role.Evidence? then pr.(stage := Returned)
      else pr.(stage := Failing(true, true, true, OsFailure))
    else if ok then Joiner(SyncThenRead)
    else pr.(stage := Failing(false, false, true, OsFailure))
  }

  function Drop(d: Directory, n: Name): Directory {
    d.(visible := d.visible - {n})
  }

  function Next(s: Sys, a: Action): Sys
    requires Enabled(s, a)
  {
    match a
    case Spawn(p, role, doc) => Put(s, p, Checking(role, doc))
    case SpawnReader(p) =>
      Put(s, p, Reader(Final in s.dir.visible, Scanning(set n | n in s.dir.visible && n.Staging? :: n.tag)))
    case Check(p) =>
      var pr := s.procs[p];
      if Final !in s.dir.visible then Put(s, p, Creating(pr.role, pr.doc))
      else if pr.role.Evidence? then Put(s, p, Ended)
      else Put(s, p, Joiner(ReadThenSync))
    case Create(p, tag, inode) =>
      var pr := s.procs[p];
      Put(s.(dir := s.dir.(files := s.dir.files[inode := File([], false, pr.doc)],
                           visible := s.dir.visible[Staging(tag) := inode])),
          p, Publisher(pr.role, pr.doc, tag, inode, Writing))
    case Write(p, data) =>
      var pr := s.procs[p];
      Put(s.(dir := s.dir.(files := s.dir.files[pr.inode := s.dir.files[pr.inode].(data := data)])),
          p, if data == pr.doc then pr.(stage := Written) else pr)
    case SyncFile(p) =>
      var pr := s.procs[p];
      Put(s.(dir := s.dir.(files := s.dir.files[pr.inode := s.dir.files[pr.inode].(synced := true)])),
          p, pr.(stage := Synced))
    case SyncDir(p) =>
      var pr := AfterSync(s.procs[p]);
      var s' := Put(s.(dir := SyncDirectory(s.dir)), p, pr);
      if pr.Joiner? && pr.join.Joined? then s'.(bound := s.bound + [pr.join.id])
      else if pr.Publisher? && pr.stage.Returned? && pr.role.Store? then s'.(bound := s.bound + [pr.doc])
      else s'
    case SyncDirFails(p, picked, cause) =>
      Put(s.(dir := Writeback(s.dir, picked)), p, AfterFailedSync(s.procs[p], cause))
    case Link(p) =>
      var pr := s.procs[p];
      if Final in s.dir.visible then
        Put(s, p, if pr.role.Store? then pr.(stage := Adopting)
                  else pr.(stage := Failing(false, false, true, AlreadyExists)))
      else
        Put(s.(dir := LinkFinal(s.dir, pr.tag)), p, pr.(stage := Linked))
    case LinkFails(p, effect, cause) =>
      var pr := s.procs[p];
      Put(if effect then s.(dir := LinkFinal(s.dir, pr.tag)) else s,
          p, pr.(stage := Failing(false, false, true, cause)))
    case OtherFails(p, cause) => Put(s, p, AfterFailure(s.procs[p], cause))
    case Inspect(p, check) =>
      var pr := s.procs[p];
      Put(s.(sound := s.sound && !Misjudges(s.dir, pr, check)), p, AfterInspect(s.dir, pr, check))
    case Unlink(p, ok) =>
      var pr := s.procs[p];
      Put(if ok then s.(dir := Drop(s.dir, Staging(pr.tag))) else s, p, AfterUnlink(pr, ok))
    case Start(p, ok) =>
      var pr := s.procs[p];
      Put(if ok then s.(children := s.children + [pr.doc]) else s, p, Ended)
    case ReadFinal(p) =>
      var id := s.dir.files[s.dir.visible[Final]].data;
      if s.procs[p].join.ReadThenSync? then Put(s, p, Joiner(SyncAfterRead(id)))
      else Put(s.(bound := s.bound + [id]), p, Joiner(Joined(id)))
    case Scan(p, companions) =>
      var saw := s.procs[p].sawFinal;
      Put(s, p, Reader(saw, if companions == {} then Confirmed else Opening(companions)))
    case OpenFinal(p) =>
      var Reader(saw, read) := s.procs[p];
      if Final in s.dir.visible then
        Put(s, p, Reader(saw, Comparing(read.companions, read.companions, s.dir.visible[Final])))
      else Put(s, p, Ended)
    case OpenCompanion(p, tag) =>
      var Reader(saw, read) := s.procs[p];
      if Staging(tag) in s.dir.visible && s.dir.visible[Staging(tag)] == read.inode then
        Put(s, p, Reader(saw, Comparing(read.companions, read.todo - {tag}, read.inode)))
      else Put(s, p, Ended)
    case CheckCompanion(p, tag) =>
      var Reader(saw, read) := s.procs[p];
      if SameFile(s.dir, tag) then Put(s, p, Reader(saw, Removing(read.companions, tag)))
      else Put(s, p, Reader(saw, Cleaning(read.companions - {tag})))
    case RemoveCompanion(p, ok) =>
      var Reader(saw, read) := s.procs[p];
      Put(if ok then s.(dir := Drop(s.dir, Staging(read.tag))) else s,
          p, Reader(saw, Cleaning(read.companions - {read.tag})))
    case Finish(p) => Put(s, p, Reader(s.procs[p].sawFinal, Confirmed))
    case KernelWriteback(picked) => s.(dir := Writeback(s.dir, picked))
    case PowerLoss(picked, torn) => s.(dir := Crash(s.dir, picked, torn), procs := map[])
  }

  /** `os.link(staging, final)`. */
  function LinkFinal(d: Directory, tag: nat): Directory
    requires Staging(tag) in d.visible
  {
    d.(visible := d.visible[Final := d.visible[Staging(tag)]])
  }
}
