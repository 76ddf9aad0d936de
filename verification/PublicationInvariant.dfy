/**
 What every step of the publication protocol keeps, in every interleaving.
 */
module PublicationInvariant {
  import opened FileSystem
  import opened Publication

  predicate Durable(d: Directory) {
    Final in d.durable
  }

  /** The staging name `t` is a durable second name of the published inode. */
  predicate Backs(d: Directory, t: nat) {
    && Final in d.visible && Staging(t) in d.visible && Staging(t) in d.durable
    && d.visible[Staging(t)] == d.visible[Final] == d.durable[Staging(t)]
  }

  /** Nothing but complete evidence is ever reachable through the final name. */
  ghost predicate DirOk(d: Directory) {
    && (forall n :: n in d.visible ==> d.visible[n] in d.files)
    && (forall n :: n in d.durable ==> d.durable[n] in d.files)
    && (Final in d.durable ==> Final in d.visible && d.visible[Final] == d.durable[Final])
    && (Final in d.visible ==> d.files[d.visible[Final]].Complete())
  }

  /** A visible final name is durable or has a durable second name. */
  ghost predicate FinalBacked(d: Directory) {
    Final in d.visible ==> Durable(d) || exists t :: Backs(d, t)
  }

  predicate Published(d: Directory, inode: Inode) {
    Final in d.visible && d.visible[Final] == inode
  }

  predicate PublisherOk(d: Directory, sound: bool, pr: Proc)
    requires pr.Publisher?
  {
    var stage, name := pr.stage, Staging(pr.tag);
    && pr.inode in d.files && d.files[pr.inode].intended == pr.doc
    && (stage.Written? ==> d.files[pr.inode].data == pr.doc)
    && (stage in {Synced, Backed, Adopting} || (stage.Failing? && stage.complete) ==> d.files[pr.inode].Complete())
    // the relation to the final name
    && (stage in {Writing, Written, Synced, Backed, Adopting} ==> !Published(d, pr.inode))
    && (stage in {Linked, Settled, Swept, Returned} ==> Published(d, pr.inode))
    && (stage.Adopting? ==> Final in d.visible)
    && (stage.Uncertain? ==> Durable(d) || Published(d, pr.inode))
    && (stage in {Settled, Swept, Returned} ==> Durable(d))
    && (stage.Failing? && stage.linked ==> Published(d, pr.inode))
    && (stage.Failing? && stage.settled ==> Durable(d))
    && (stage.Aborting? && sound ==> Durable(d) || !Published(d, pr.inode))
    // until the final name is durable nobody takes the staging name away
    && (Durable(d) || (name in d.visible && d.visible[name] == pr.inode))
    && (stage in {Backed, Linked, Uncertain} || (stage.Failing? && Published(d, pr.inode))
        ==> Durable(d) || (name in d.durable && d.durable[name] == pr.inode))
  }

  predicate JoinerOk(d: Directory, join: JoinStep) {
    && FinalReadable(d)
    && match join
       case ReadThenSync => true
       case SyncAfterRead(id) => d.files[d.visible[Final]].data == id
       case SyncThenRead => true
       case ReadAfterSync => Durable(d)
       case Joined(id) => Durable(d) && d.files[d.visible[Final]].data == id
  }

  ghost predicate ReaderOk(d: Directory, sound: bool, sawFinal: bool, read: ReadStep) {
    && (sawFinal ==> Final in d.visible)
    && match read
       case Scanning(present) =>
         sawFinal && sound ==> Durable(d) || exists t :: t in present && Backs(d, t)
       case Opening(_) => true
       case Comparing(_, _, _) => Final in d.visible
       case Cleaning(_) => Durable(d)
       case Removing(_, _) => Durable(d)
       case Confirmed => sawFinal && sound ==> Durable(d)
  }

  ghost predicate ProcOk(d: Directory, sound: bool, pr: Proc) {
    match pr
    case Publisher(_, _, _, _, _) => PublisherOk(d, sound, pr)
    case Joiner(join) => JoinerOk(d, join)
    case Reader(saw, read) => ReaderOk(d, sound, saw, read)
    case _ => true
  }

  ghost predicate ProcsOk(d: Directory, sound: bool, procs: map<Pid, Proc>) {
    && (forall p :: p in procs ==> ProcOk(d, sound, procs[p]))
    && (forall p, q :: p in procs && q in procs && p != q && procs[p].Publisher? && procs[q].Publisher?
                       ==> procs[p].inode != procs[q].inode)
  }

  /** At most one child, and only behind a durable, complete launch receipt. */
  ghost predicate ChildrenOk(s: Sys) {
    && |s.children| <= 1
    && (s.children != [] ==>
          && Durable(s.dir) && FinalReadable(s.dir)
          && s.dir.files[s.dir.visible[Final]].data == s.children[0]
          && forall p :: p in s.procs && s.procs[p].Publisher? ==> !Published(s.dir, s.procs[p].inode))
  }

  ghost predicate BoundOk(d: Directory, bound: seq<Bytes>) {
    bound != [] ==>
      && Durable(d) && FinalReadable(d)
      && forall k :: 0 <= k < |bound| ==> bound[k] == d.files[d.visible[Final]].data
  }

  ghost predicate Inv(s: Sys) {
    && DirOk(s.dir)
    && ProcsOk(s.dir, s.sound, s.procs)
    && (s.sound ==> FinalBacked(s.dir))
    && ChildrenOk(s)
    && BoundOk(s.dir, s.bound)
  }

  // ------------------------------------------------- what a change of directory leaves alone

  /** A new private inode under a name nobody sees. */
  lemma CreateKeeps(d: Directory, sound: bool, tag: nat, inode: Inode, file: File<Bytes>, pr: Proc)
    requires DirOk(d) && ProcOk(d, sound, pr)
    requires Staging(tag) !in d.visible && inode !in d.files
    ensures ProcOk(d.(files := d.files[inode := file], visible := d.visible[Staging(tag) := inode]), sound, pr)
  {
    var d' := d.(files := d.files[inode := file], visible := d.visible[Staging(tag) := inode]);
    assert forall t :: Backs(d, t) ==> Backs(d', t);
  }

  /** Changing the data of an inode that is neither this process's nor published. */
  lemma DataKeeps(d: Directory, sound: bool, inode: Inode, file: File<Bytes>, pr: Proc)
    requires DirOk(d) && ProcOk(d, sound, pr)
    requires inode in d.files && !Published(d, inode)
    requires pr.Publisher? ==> pr.inode != inode
    ensures ProcOk(d.(files := d.files[inode := file]), sound, pr)
  {
    var d' := d.(files := d.files[inode := file]);
    assert forall t :: Backs(d, t) ==> Backs(d', t);
  }

  lemma FlushBacks(d: Directory, d': Directory, t: nat)
    requires Flushed(d, d') && Backs(d, t)
    ensures Backs(d', t)
  {
    assert Entry(d'.durable, Staging(t)) == Entry(d.durable, Staging(t)) || Entry(d'.durable, Staging(t)) == Entry(d.visible, Staging(t));
  }

  lemma FlushDurable(d: Directory, d': Directory)
    requires DirOk(d) && Flushed(d, d')
    ensures DirOk(d') && (Durable(d) ==> Durable(d'))
  {
    forall n | n in d'.durable
      ensures d'.durable[n] in d'.files
    {
      assert Entry(d'.durable, n) == Entry(d.durable, n) || Entry(d'.durable, n) == Entry(d.visible, n);
    }
    assert Entry(d'.durable, Final) == Entry(d.durable, Final) || Entry(d'.durable, Final) == Entry(d.visible, Final);
  }

  /** Writing entries back, in whatever mixture. */
  lemma FlushKeeps(d: Directory, d': Directory, sound: bool, pr: Proc)
    requires DirOk(d) && Flushed(d, d') && ProcOk(d, sound, pr)
    ensures ProcOk(d', sound, pr)
  {
    FlushDurable(d, d');
    if pr.Publisher? {
      var n := Staging(pr.tag);
      assert Entry(d'.durable, n) == Entry(d.durable, n) || Entry(d'.durable, n) == Entry(d.visible, n);
    }
    if pr.Reader? && pr.read.Scanning? && pr.sawFinal && sound && !Durable(d) {
      var t :| t in pr.read.present && Backs(d, t);
      FlushBacks(d, d', t);
    }
  }

  lemma FlushKeepsAll(d: Directory, d': Directory, sound: bool, procs: map<Pid, Proc>)
    requires DirOk(d) && Flushed(d, d') && ProcsOk(d, sound, procs)
    requires sound ==> FinalBacked(d)
    ensures DirOk(d') && ProcsOk(d', sound, procs) && (Durable(d) ==> Durable(d'))
    ensures sound ==> FinalBacked(d')
  {
    FlushDurable(d, d');
    forall p | p in procs
      ensures ProcOk(d', sound, procs[p])
    {
      FlushKeeps(d, d', sound, procs[p]);
    }
    if sound && Final in d.visible && !Durable(d) {
      var t :| Backs(d, t);
      FlushBacks(d, d', t);
    }
  }

  /** A first link of the final name to the inode of another publisher. */
  lemma LinkKeeps(d: Directory, sound: bool, tag: nat, pr: Proc)
    requires DirOk(d) && ProcOk(d, sound, pr)
    requires Final !in d.visible && Staging(tag) in d.visible
    requires pr.Publisher? ==> pr.inode != d.visible[Staging(tag)]
    ensures ProcOk(LinkFinal(d, tag), sound, pr)
  {}

  /** Dropping a staging name that is not the published inode's, or dropping any of them once
      the final name is durable. */
  lemma DropKeeps(d: Directory, sound: bool, tag: nat, pr: Proc)
    requires DirOk(d) && ProcOk(d, sound, pr)
    requires !Durable(d) && pr.Publisher? ==> pr.tag != tag
    requires sound ==> Durable(d) || !SameFile(d, tag)
    ensures ProcOk(Drop(d, Staging(tag)), sound, pr)
  {
    var d' := Drop(d, Staging(tag));
    assert forall t :: Backs(d, t) && t != tag ==> Backs(d', t);
  }

  lemma DropKeepsDir(d: Directory, tag: nat)
    requires DirOk(d)
    ensures DirOk(Drop(d, Staging(tag)))
    ensures FinalBacked(d) && (Durable(d) || !SameFile(d, tag)) ==> FinalBacked(Drop(d, Staging(tag)))
  {
    var d' := Drop(d, Staging(tag));
    assert forall t :: Backs(d, t) && t != tag ==> Backs(d', t);
  }

  // ---------------------------------------------------------------- one lemma per kind of step

  /** Steps that only move one process along. */
  lemma LocalStepKeepsInv(s: Sys, p: Pid, pr: Proc)
    requires Inv(s)
    requires ProcOk(s.dir, s.sound, pr)
    requires pr.Publisher? ==> p in s.procs && s.procs[p].Publisher? && s.procs[p].inode == pr.inode
    ensures Inv(Put(s, p, pr))
  {}

  lemma CheckKeepsInv(s: Sys, p: Pid)
    requires Inv(s) && Enabled(s, Check(p))
    ensures Inv(Next(s, Check(p)))
  {
    LocalStepKeepsInv(s, p, Next(s, Check(p)).procs[p]);
  }

  lemma SpawnKeepsInv(s: Sys, a: Action)
    requires Inv(s) && (a.Spawn? || a.SpawnReader?) && Enabled(s, a)
    ensures Inv(Next(s, a))
  {
    var pr := Next(s, a).procs[a.p];
    if a.SpawnReader? && s.sound && Final in s.dir.visible && !Durable(s.dir) {
      var t :| Backs(s.dir, t);
      assert Staging(t).tag in pr.read.present;
    }
    LocalStepKeepsInv(s, a.p, pr);
  }

  lemma CreateKeepsInv(s: Sys, a: Action)
    requires Inv(s) && a.Create? && Enabled(s, a)
    ensures Inv(Next(s, a))
  {
    var s' := Next(s, a);
    var file := File([], false, s.procs[a.p].doc);
    forall q | q in s'.procs
      ensures ProcOk(s'.dir, s'.sound, s'.procs[q])
    {
      if q != a.p {
        CreateKeeps(s.dir, s.sound, a.tag, a.inode, file, s.procs[q]);
      }
    }
    assert forall t :: Backs(s.dir, t) ==> Backs(s'.dir, t);
  }

  lemma DataKeepsInv(s: Sys, a: Action)
    requires Inv(s) && (a.Write? || a.SyncFile?) && Enabled(s, a)
    ensures Inv(Next(s, a))
  {
    var s' := Next(s, a);
    var inode := s.procs[a.p].inode;
    forall q | q in s'.procs
      ensures ProcOk(s'.dir, s'.sound, s'.procs[q])
    {
      if q != a.p {
        DataKeeps(s.dir, s.sound, inode, s'.dir.files[inode], s.procs[q]);
      }
    }
    assert forall t :: Backs(s.dir, t) ==> Backs(s'.dir, t);
  }

  /** The directory part of any sync, whole or partial. */
  lemma FlushStepKeepsInv(s: Sys, d': Directory)
    requires Inv(s) && Flushed(s.dir, d')
    ensures Inv(s.(dir := d'))
  {
    FlushKeepsAll(s.dir, d', s.sound, s.procs);
  }

  lemma SyncDirKeepsInv(s: Sys, p: Pid)
    requires Inv(s) && Enabled(s, SyncDir(p))
    ensures Inv(Next(s, SyncDir(p)))
  {
    var d' := SyncDirectory(s.dir);
    SyncFlushes(s.dir);
    FlushStepKeepsInv(s, d');
    LocalStepKeepsInv(s.(dir := d'), p, AfterSync(s.procs[p]));
  }

  lemma SyncDirFailsKeepsInv(s: Sys, a: Action)
    requires Inv(s) && a.SyncDirFails? && Enabled(s, a)
    ensures Inv(Next(s, a))
  {
    var d' := Writeback(s.dir, a.picked);
    WritebackFlushes(s.dir, a.picked);
    FlushStepKeepsInv(s, d');
    LocalStepKeepsInv(s.(dir := d'), a.p, AfterFailedSync(s.procs[a.p], a.cause));
  }

  /** The directory part of a link that takes effect. */
  lemma LinkEffectKeepsInv(s: Sys, p: Pid, stage: Stage)
    requires Inv(s) && At(s, p, Backed)
    requires Final !in s.dir.visible && Staging(s.procs[p].tag) in s.dir.visible
    requires stage.Linked? || (stage.Failing? && !stage.linked && !stage.settled)
    ensures Inv(Put(s.(dir := LinkFinal(s.dir, s.procs[p].tag)), p, s.procs[p].(stage := stage)))
  {
    var pr := s.procs[p];
    var s' := Put(s.(dir := LinkFinal(s.dir, pr.tag)), p, pr.(stage := stage));
    forall q | q in s'.procs
      ensures ProcOk(s'.dir, s'.sound, s'.procs[q])
    {
      if q != p {
        LinkKeeps(s.dir, s.sound, pr.tag, s.procs[q]);
      }
    }
    assert Backs(s'.dir, pr.tag);
  }

  lemma LinkKeepsInv(s: Sys, a: Action)
    requires Inv(s) && (a.Link? || a.LinkFails?) && Enabled(s, a)
    ensures Inv(Next(s, a))
  {
    var pr := Next(s, a).procs[a.p];
    if (a.Link? && Final in s.dir.visible) || (a.LinkFails? && !a.effect) {
      LocalStepKeepsInv(s, a.p, pr);
    } else {
      LinkEffectKeepsInv(s, a.p, pr.stage);
    }
  }

  lemma OtherFailsKeepsInv(s: Sys, a: Action)
    requires Inv(s) && a.OtherFails? && Enabled(s, a)
    ensures Inv(Next(s, a))
  {
    LocalStepKeepsInv(s, a.p, AfterFailure(s.procs[a.p], a.cause));
  }

  lemma SoundnessOnlyEnds(s: Sys, sound: bool)
    requires Inv(s) && (sound ==> s.sound)
    ensures Inv(s.(sound := sound))
  {}

  lemma InspectKeepsInv(s: Sys, a: Action)
    requires Inv(s) && a.Inspect? && Enabled(s, a)
    ensures Inv(Next(s, a))
  {
    var s' := Next(s, a);
    SoundnessOnlyEnds(s, s'.sound);
    LocalStepKeepsInv(s.(sound := s'.sound), a.p, AfterInspect(s.dir, s.procs[a.p], a.check));
  }

  /** The directory part of dropping a staging name. */
  lemma DropStepKeepsInv(s: Sys, p: Pid, tag: nat)
    requires Inv(s)
    requires forall q :: q in s.procs && s.procs[q].Publisher? && q != p && !Durable(s.dir) ==> s.procs[q].tag != tag
    requires s.sound ==> Durable(s.dir) || !SameFile(s.dir, tag)
    ensures Inv(s.(dir := Drop(s.dir, Staging(tag)), procs := s.procs - {p}))
  {
    var d' := Drop(s.dir, Staging(tag));
    DropKeepsDir(s.dir, tag);
    forall q | q in s.procs - {p}
      ensures ProcOk(d', s.sound, s.procs[q])
    {
      DropKeeps(s.dir, s.sound, tag, s.procs[q]);
    }
  }

  lemma UnlinkKeepsInv(s: Sys, a: Action)
    requires Inv(s) && a.Unlink? && Enabled(s, a)
    ensures Inv(Next(s, a))
  {
    var pr := s.procs[a.p];
    if a.ok {
      DropStepKeepsInv(s, a.p, pr.tag);
      var s' := Next(s, a);
      assert s'.procs == (s.procs - {a.p})[a.p := AfterUnlink(pr, true)];
    } else {
      LocalStepKeepsInv(s, a.p, AfterUnlink(pr, false));
    }
  }

  lemma StartKeepsInv(s: Sys, a: Action)
    requires Inv(s) && a.Start? && Enabled(s, a)
    ensures Inv(Next(s, a))
  {
    LocalStepKeepsInv(s, a.p, Ended);
  }

  lemma ReadFinalKeepsInv(s: Sys, p: Pid)
    requires Inv(s) && Enabled(s, ReadFinal(p))
    ensures Inv(Next(s, ReadFinal(p)))
  {
    LocalStepKeepsInv(s, p, Next(s, ReadFinal(p)).procs[p]);
  }

  lemma ScanKeepsInv(s: Sys, a: Action)
    requires Inv(s) && a.Scan? && Enabled(s, a)
    ensures Inv(Next(s, a))
  {
    LocalStepKeepsInv(s, a.p, Next(s, a).procs[a.p]);
  }

  lemma ReaderKeepsInv(s: Sys, a: Action)
    requires Inv(s) && (a.OpenFinal? || a.OpenCompanion? || a.CheckCompanion? || a.Finish?) && Enabled(s, a)
    ensures Inv(Next(s, a))
  {
    if a.OpenFinal? || a.OpenCompanion? {
      OpeningKeepsInv(s, a);
    } else {
      LocalStepKeepsInv(s, a.p, Next(s, a).procs[a.p]);
    }
  }

  lemma OpeningKeepsInv(s: Sys, a: Action)
    requires Inv(s) && (a.OpenFinal? || a.OpenCompanion?) && Enabled(s, a)
    ensures Inv(Next(s, a))
  {
    LocalStepKeepsInv(s, a.p, Next(s, a).procs[a.p]);
  }

  lemma RemoveCompanionKeepsInv(s: Sys, a: Action)
    requires Inv(s) && a.RemoveCompanion? && Enabled(s, a)
    ensures Inv(Next(s, a))
  {
    var pr := Next(s, a).procs[a.p];
    if a.ok {
      DropStepKeepsInv(s, a.p, s.procs[a.p].read.tag);
      var s' := Next(s, a);
      assert s'.procs == (s.procs - {a.p})[a.p := pr];
    } else {
      LocalStepKeepsInv(s, a.p, pr);
    }
  }

  lemma KernelKeepsInv(s: Sys, a: Action)
    requires Inv(s) && (a.KernelWriteback? || a.PowerLoss?) && Enabled(s, a)
    ensures Inv(Next(s, a))
  {
    var d' := Writeback(s.dir, a.picked);
    WritebackFlushes(s.dir, a.picked);
    FlushStepKeepsInv(s, d');
  }

  lemma PublisherStepKeepsInv(s: Sys, a: Action)
    requires Inv(s) && Enabled(s, a)
    requires a.Check? || a.Create? || a.Write? || a.SyncFile? || a.Link? || a.LinkFails? || a.Inspect? || a.Unlink? || a.Start?
    ensures Inv(Next(s, a))
  {
    match a
    case Check(p) => CheckKeepsInv(s, p);
    case Create(_, _, _) => CreateKeepsInv(s, a);
    case Write(_, _) => DataKeepsInv(s, a);
    case SyncFile(_) => DataKeepsInv(s, a);
    case Link(_) => LinkKeepsInv(s, a);
    case LinkFails(_, _, _) => LinkKeepsInv(s, a);
    case Inspect(_, _) => InspectKeepsInv(s, a);
    case Unlink(_, _) => UnlinkKeepsInv(s, a);
    case Start(_, _) => StartKeepsInv(s, a);
  }

  lemma ReaderStepKeepsInv(s: Sys, a: Action)
    requires Inv(s) && Enabled(s, a)
    requires a.ReadFinal? || a.Scan? || a.OpenFinal? || a.OpenCompanion? || a.CheckCompanion? || a.RemoveCompanion? || a.Finish?
    ensures Inv(Next(s, a))
  {
    match a
    case ReadFinal(p) => ReadFinalKeepsInv(s, p);
    case Scan(_, _) => ScanKeepsInv(s, a);
    case OpenFinal(_) => ReaderKeepsInv(s, a);
    case OpenCompanion(_, _) => ReaderKeepsInv(s, a);
    case CheckCompanion(_, _) => ReaderKeepsInv(s, a);
    case RemoveCompanion(_, _) => RemoveCompanionKeepsInv(s, a);
    case Finish(_) => ReaderKeepsInv(s, a);
  }

  lemma CommonStepKeepsInv(s: Sys, a: Action)
    requires Inv(s) && Enabled(s, a)
    requires a.Spawn? || a.SpawnReader? || a.SyncDir? || a.SyncDirFails? || a.OtherFails? || a.KernelWriteback? || a.PowerLoss?
    ensures Inv(Next(s, a))
  {
    match a
    case Spawn(_, _, _) => SpawnKeepsInv(s, a);
    case SpawnReader(_) => SpawnKeepsInv(s, a);
    case SyncDir(p) => SyncDirKeepsInv(s, p);
    case SyncDirFails(_, _, _) => SyncDirFailsKeepsInv(s, a);
    case OtherFails(_, _) => OtherFailsKeepsInv(s, a);
    case KernelWriteback(_) => KernelKeepsInv(s, a);
    case PowerLoss(_, _) => KernelKeepsInv(s, a);
  }

  lemma StepKeepsInv(s: Sys, a: Action)
    requires Inv(s) && Enabled(s, a)
    ensures Inv(Next(s, a))
  {
    if a.Check? || a.Create? || a.Write? || a.SyncFile? || a.Link? || a.LinkFails? || a.Inspect? || a.Unlink? || a.Start? {
      PublisherStepKeepsInv(s, a);
    } else if a.ReadFinal? || a.Scan? || a.OpenFinal? || a.OpenCompanion? || a.CheckCompanion? || a.RemoveCompanion? || a.Finish? {
      ReaderStepKeepsInv(s, a);
    } else {
      CommonStepKeepsInv(s, a);
    }
  }
}
