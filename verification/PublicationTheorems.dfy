/**
 Whole-system guarantees of the publication protocol, over every run.
 */
module PublicationTheorems {
  import opened FileSystem
  import opened Publication
  import opened PublicationInvariant

  /** The state after a schedule of actions; None if some action was not possible. */
  function Exec(s: Sys, acts: seq<Action>): Option<Sys>
  {
    if acts == [] then Some(s)
    else
      var mid := Exec(s, acts[..|acts| - 1]);
      if mid.Some? && Enabled(mid.value, acts[|acts| - 1]) then Some(Next(mid.value, acts[|acts| - 1])) else None
  }

  /** No two staging names have ever been given to one inode. */
  ghost predicate NamesUnique(d: Directory) {
    forall a, b, i :: Named(d, a, i) && Named(d, b, i) ==> a == b
  }

  predicate Named(d: Directory, t: nat, i: Inode) {
    Entry(d.visible, Staging(t)) == Some(i) || Entry(d.durable, Staging(t)) == Some(i)
  }

  /** A quiet machine: no process yet, whatever evidence and leftovers the directory holds. */
  ghost predicate Initial(s: Sys) {
    && s.procs == map[] && s.children == [] && s.bound == [] && s.sound
    && s.dir.visible == s.dir.durable && DirOk(s.dir) && NamesUnique(s.dir)
  }

  ghost predicate Reaches(s0: Sys, acts: seq<Action>, s: Sys) {
    Initial(s0) && Exec(s0, acts) == Some(s)
  }

  lemma {:induction false} RunKeepsInv(s0: Sys, acts: seq<Action>, s: Sys)
    requires Reaches(s0, acts, s)
    ensures Inv(s)
    decreases |acts|
  {
    if acts != [] {
      var mid := Exec(s0, acts[..|acts| - 1]).value;
      RunKeepsInv(s0, acts[..|acts| - 1], mid);
      StepKeepsInv(mid, acts[|acts| - 1]);
    }
  }

  // ---------------------------------------------------------------- at most one child

  /** However many executors race for one segment, and whatever fails or loses power, at most
      one of them ever starts a scientific child; and behind a started child the launch receipt
      is durable and holds exactly the bytes that executor set out to publish. */
  lemma AtMostOneChild(s0: Sys, acts: seq<Action>, s: Sys)
    requires Reaches(s0, acts, s)
    ensures |s.children| <= 1
    ensures |s.children| == 1 ==>
              && Final in s.dir.durable && s.dir.durable[Final] in s.dir.files
              && s.dir.files[s.dir.durable[Final]] == File(s.children[0], true, s.children[0])
  {
    RunKeepsInv(s0, acts, s);
  }

  // ---------------------------------------------------------------- the final name

  /** The file behind the final name. */
  function FinalFile(d: Directory): Option<File<Bytes>> {
    if FinalReadable(d) then Some(d.files[d.visible[Final]]) else None
  }

  ghost predicate FinalKept(d: Directory, d': Directory) {
    Entry(d'.visible, Final) == Entry(d.visible, Final) && FinalFile(d') == FinalFile(d)
  }

  lemma DataStepKeepsFinal(s: Sys, a: Action)
    requires Inv(s) && Enabled(s, a) && (a.Create? || a.Write? || a.SyncFile?)
    ensures FinalKept(s.dir, Next(s, a).dir) && Next(s, a).dir.durable == s.dir.durable
  {}

  lemma NameStepKeepsFinal(s: Sys, a: Action)
    requires Inv(s) && Enabled(s, a) && Final in s.dir.visible
    requires a.Link? || a.LinkFails? || a.Unlink? || a.RemoveCompanion?
    ensures FinalKept(s.dir, Next(s, a).dir) && Next(s, a).dir.durable == s.dir.durable
  {}

  lemma SyncStepKeepsFinal(s: Sys, a: Action)
    requires Inv(s) && Enabled(s, a) && Final in s.dir.visible
    requires a.SyncDir? || a.SyncDirFails? || a.KernelWriteback? || (a.PowerLoss? && Final in s.dir.durable)
    ensures FinalKept(s.dir, Next(s, a).dir)
    ensures Final in s.dir.durable ==> Final in Next(s, a).dir.durable
  {}

  lemma OtherStepKeepsDir(s: Sys, a: Action)
    requires Enabled(s, a)
    requires a.Spawn? || a.SpawnReader? || a.Check? || a.OtherFails? || a.Inspect? || a.Start? || a.ReadFinal?
             || a.Scan? || a.OpenFinal? || a.OpenCompanion? || a.CheckCompanion? || a.Finish?
    ensures Next(s, a).dir == s.dir
  {}

  lemma StepKeepsFinal(s: Sys, a: Action)
    requires Inv(s) && Enabled(s, a) && Final in s.dir.visible
    requires a.PowerLoss? ==> Final in s.dir.durable
    ensures FinalKept(s.dir, Next(s, a).dir)
    ensures Final in s.dir.durable ==> Final in Next(s, a).dir.durable
  {
    if a.Create? || a.Write? || a.SyncFile? {
      DataStepKeepsFinal(s, a);
    } else if a.Link? || a.LinkFails? || a.Unlink? || a.RemoveCompanion? {
      NameStepKeepsFinal(s, a);
    } else if a.SyncDir? || a.SyncDirFails? || a.KernelWriteback? || a.PowerLoss? {
      SyncStepKeepsFinal(s, a);
    } else {
      OtherStepKeepsDir(s, a);
    }
  }

  /** Without a power loss in between, a visible final name keeps its inode and its bytes. */
  lemma {:induction false} VisibleFinalNeverRepointed(s0: Sys, acts: seq<Action>, s: Sys, more: seq<Action>, t: Sys)
    requires Reaches(s0, acts, s) && Exec(s, more) == Some(t)
    requires Final in s.dir.visible
    requires forall k :: 0 <= k < |more| ==> !more[k].PowerLoss?
    ensures Inv(t) && Final in t.dir.visible && FinalKept(s.dir, t.dir)
    decreases |more|
  {
    RunKeepsInv(s0, acts, s);
    if more != [] {
      var mid := Exec(s, more[..|more| - 1]).value;
      VisibleFinalNeverRepointed(s0, acts, s, more[..|more| - 1], mid);
      StepKeepsInv(mid, more[|more| - 1]);
      StepKeepsFinal(mid, more[|more| - 1]);
    }
  }

  /** A durable final name keeps its inode and its bytes for ever, through any power loss. */
  lemma {:induction false} DurableFinalNeverRepointed(s0: Sys, acts: seq<Action>, s: Sys, more: seq<Action>, t: Sys)
    requires Reaches(s0, acts, s) && Exec(s, more) == Some(t)
    requires Final in s.dir.durable
    ensures Inv(t) && FinalKept(s.dir, t.dir)
    ensures Final in t.dir.durable && t.dir.durable[Final] == s.dir.durable[Final]
    decreases |more|
  {
    RunKeepsInv(s0, acts, s);
    if more != [] {
      var mid := Exec(s, more[..|more| - 1]).value;
      DurableFinalNeverRepointed(s0, acts, s, more[..|more| - 1], mid);
      StepKeepsInv(mid, more[|more| - 1]);
      StepKeepsFinal(mid, more[|more| - 1]);
    }
  }

  /** A visible final name is durable, or a durable staging name still carries the same complete
      inode - in every run in which no failure handler misjudged its own publication. */
  lemma VisibleFinalIsBacked(s0: Sys, acts: seq<Action>, s: Sys)
    requires Reaches(s0, acts, s) && s.sound
    ensures Final in s.dir.visible ==>
              && s.dir.visible[Final] in s.dir.files && s.dir.files[s.dir.visible[Final]].Complete()
              && (Final in s.dir.durable || exists t :: Backs(s.dir, t))
  {
    RunKeepsInv(s0, acts, s);
  }

  lemma CreateKeepsNames(s: Sys, a: Action)
    requires DirOk(s.dir) && NamesUnique(s.dir) && Enabled(s, a) && a.Create?
    ensures NamesUnique(Next(s, a).dir)
  {
    var d, d' := s.dir, Next(s, a).dir;
    assert forall t, i :: Named(d', t, i) && i != a.inode ==> Named(d, t, i);
    assert forall t :: Named(d', t, a.inode) ==> t == a.tag;
  }

  lemma SyncKeepsNames(s: Sys, a: Action)
    requires NamesUnique(s.dir) && Enabled(s, a)
    requires a.SyncDir? || a.SyncDirFails? || a.KernelWriteback? || a.PowerLoss?
    ensures NamesUnique(Next(s, a).dir)
  {
    var d, d' := s.dir, Next(s, a).dir;
    assert forall t, i :: Named(d', t, i) ==> Named(d, t, i);
  }

  lemma NameStepKeepsNames(s: Sys, a: Action)
    requires NamesUnique(s.dir) && Enabled(s, a)
    requires a.Link? || a.LinkFails? || a.Unlink? || a.RemoveCompanion? || a.Write? || a.SyncFile?
    ensures NamesUnique(Next(s, a).dir)
  {
    var d, d' := s.dir, Next(s, a).dir;
    assert forall t, i :: Named(d', t, i) ==> Named(d, t, i);
  }

  lemma StepKeepsNames(s: Sys, a: Action)
    requires DirOk(s.dir) && NamesUnique(s.dir) && Enabled(s, a)
    ensures NamesUnique(Next(s, a).dir)
  {
    if a.Create? {
      CreateKeepsNames(s, a);
    } else if a.SyncDir? || a.SyncDirFails? || a.KernelWriteback? || a.PowerLoss? {
      SyncKeepsNames(s, a);
    } else if a.Link? || a.LinkFails? || a.Unlink? || a.RemoveCompanion? || a.Write? || a.SyncFile? {
      NameStepKeepsNames(s, a);
    } else {
      OtherStepKeepsDir(s, a);
    }
  }

  lemma {:induction false} RunKeepsNames(s0: Sys, acts: seq<Action>, s: Sys)
    requires Reaches(s0, acts, s)
    ensures NamesUnique(s.dir)
    decreases |acts|
  {
    if acts != [] {
      var mid := Exec(s0, acts[..|acts| - 1]).value;
      RunKeepsInv(s0, acts[..|acts| - 1], mid);
      RunKeepsNames(s0, acts[..|acts| - 1], mid);
      StepKeepsNames(mid, acts[|acts| - 1]);
    }
  }

  /** The converse: as soon as a failure handler misjudges its own publication, its very next
      step leaves a visible final name with no durable name behind it. */
  lemma MisjudgingLosesTheFallback(s0: Sys, acts: seq<Action>, s: Sys, p: Pid, check: Check)
    requires Reaches(s0, acts, s)
    requires Enabled(s, Inspect(p, check)) && Misjudges(s.dir, s.procs[p], check)
    ensures var t := Next(s, Inspect(p, check));
            && Enabled(t, Unlink(p, true))
            && !FinalBacked(Next(t, Unlink(p, true)).dir)
  {
    RunKeepsInv(s0, acts, s);
    RunKeepsNames(s0, acts, s);
    var tag := s.procs[p].tag;
    var u := Next(Next(s, Inspect(p, check)), Unlink(p, true));
    forall t ensures !Backs(u.dir, t) {
      if Backs(u.dir, t) {
        assert Named(s.dir, t, s.dir.visible[Final]) && Named(s.dir, tag, s.dir.visible[Final]);
      }
    }
  }

  /** An interrupt of the check is the same: it loses the fallback of every evidence publisher whose final name
      is visible and not yet durable, even after a link that was reported as done. */
  lemma InterruptedCheckLosesTheFallback(s0: Sys, acts: seq<Action>, s: Sys, p: Pid)
    requires Reaches(s0, acts, s) && Enabled(s, Inspect(p, Cut)) && s.procs[p].role.Evidence?
    requires SameFile(s.dir, s.procs[p].tag) && Final !in s.dir.durable
    ensures !FinalBacked(Next(Next(s, Inspect(p, Cut)), Unlink(p, true)).dir)
  {
    MisjudgingLosesTheFallback(s0, acts, s, p, Cut);
  }

  ghost predicate Nameless(d: Directory, inode: Inode) {
    forall n :: n in d.visible ==> d.visible[n] != inode
  }

  /** A power loss then leaves no name of the evidence a reader could already see. */
  lemma MisjudgedEvidenceVanishes(s0: Sys, acts: seq<Action>, s: Sys, p: Pid, check: Check)
    requires Reaches(s0, acts, s)
    requires Enabled(s, Inspect(p, check)) && Misjudges(s.dir, s.procs[p], check)
    ensures Nameless(Next(Misjudged(s, p, check), PowerLoss({Staging(s.procs[p].tag)}, map[])).dir, s.dir.visible[Final])
  {
    RunKeepsNames(s0, acts, s);
    CrashTakesTheName(s.dir, s.procs[p].tag);
    PowerLossCrashes(Misjudged(s, p, check), {Staging(s.procs[p].tag)});
  }

  lemma PowerLossCrashes(s: Sys, picked: set<Name>)
    ensures Next(s, PowerLoss(picked, map[])).dir == Crash(s.dir, picked, map[])
  {}

  /** The misjudging handler and its next step. */
  function Misjudged(s: Sys, p: Pid, check: Check): (t: Sys)
    requires Enabled(s, Inspect(p, check)) && Misjudges(s.dir, s.procs[p], check)
    ensures t.dir == Drop(s.dir, Staging(s.procs[p].tag)) && FinalKept(s.dir, t.dir)
  {
    Next(Next(s, Inspect(p, check)), Unlink(p, true))
  }

  lemma CrashTakesTheName(d: Directory, tag: nat)
    requires NamesUnique(d) && SameFile(d, tag) && Final !in d.durable
    ensures Nameless(Crash(Drop(d, Staging(tag)), {Staging(tag)}, map[]), d.visible[Final])
  {
    var d', inode := Drop(d, Staging(tag)), d.visible[Final];
    var r := Crash(d', {Staging(tag)}, map[]);
    assert Named(d, tag, inode);
    forall n | n in r.visible ensures r.visible[n] != inode {
      assert Entry(r.durable, n) == if n == Staging(tag) then Entry(d'.visible, n) else Entry(d'.durable, n);
      if r.visible[n] == inode {
        assert Named(d, n.tag, inode);
      }
    }
  }

  /** Such a run exists: the link took effect but was reported interrupted, and then the
      identity check failed as well. */
  lemma MisjudgingIsPossible(doc: Bytes)
    requires doc != []
    ensures exists s0, acts, s, p ::
              && Reaches(s0, acts, s) && Enabled(s, Inspect(p, Blind)) && Misjudges(s.dir, s.procs[p], Blind)
  {
    DemoRun(doc, 7);
    var s0, s := DemoState(doc, 0), DemoState(doc, 7);
    assert Reaches(s0, DemoActions(doc, 7), s);
    assert Enabled(s, Inspect(0, Blind)) && Misjudges(s.dir, s.procs[0], Blind);
  }

  /** The states and actions of that run: one evidence publisher, alone on the machine. */
  function DemoState(doc: Bytes, k: nat): Sys
    requires k <= 7
  {
    var stages := [Writing, Written, Synced, Backed, Failing(false, false, true, Interrupt)];
    var pr := if k == 1 then Checking(Evidence, doc) else if k <= 2 then Creating(Evidence, doc)
              else Publisher(Evidence, doc, 0, 0, stages[k - 3]);
    Sys(Disk(if k <= 2 then map[] else if k == 3 then map[0 := File([], false, doc)] else map[0 := File(doc, k >= 5, doc)],
             if k <= 2 then map[] else if k <= 6 then map[Staging(0) := 0] else map[Staging(0) := 0, Final := 0],
             if k <= 5 then map[] else map[Staging(0) := 0]),
        if k == 0 then map[] else map[0 := pr], [], [], true)
  }

  function DemoAction(doc: Bytes, k: nat): Action
    requires k < 7
  {
    [Spawn(0, Evidence, doc), Check(0), Create(0, 0, 0), Write(0, doc), SyncFile(0), SyncDir(0),
     LinkFails(0, true, Interrupt)][k]
  }

  function DemoActions(doc: Bytes, k: nat): seq<Action>
    requires k <= 7
  {
    if k == 0 then [] else DemoActions(doc, k - 1) + [DemoAction(doc, k - 1)]
  }

  lemma DemoStep(doc: Bytes, k: nat)
    requires k < 7 && doc != []
    ensures Enabled(DemoState(doc, k), DemoAction(doc, k))
    ensures SameSys(Next(DemoState(doc, k), DemoAction(doc, k)), DemoState(doc, k + 1))
  {
    if k <= 2 {
      DemoCreates(doc, k);
    } else if k <= 4 {
      DemoWrites(doc, k);
    } else {
      DemoLinks(doc, k);
    }
  }

  lemma DemoCreates(doc: Bytes, k: nat)
    requires k <= 2
    ensures Enabled(DemoState(doc, k), DemoAction(doc, k))
    ensures SameSys(Next(DemoState(doc, k), DemoAction(doc, k)), DemoState(doc, k + 1))
  {}

  lemma DemoWrites(doc: Bytes, k: nat)
    requires 3 <= k <= 4 && doc != []
    ensures Enabled(DemoState(doc, k), DemoAction(doc, k))
    ensures SameSys(Next(DemoState(doc, k), DemoAction(doc, k)), DemoState(doc, k + 1))
  {}

  lemma DemoLinks(doc: Bytes, k: nat)
    requires 5 <= k <= 6
    ensures Enabled(DemoState(doc, k), DemoAction(doc, k))
    ensures SameSys(Next(DemoState(doc, k), DemoAction(doc, k)), DemoState(doc, k + 1))
  {}

  lemma {:induction false} DemoRun(doc: Bytes, k: nat)
    requires k <= 7 && doc != []
    ensures Exec(DemoState(doc, 0), DemoActions(doc, k)) == Some(DemoState(doc, k))
  {
    if k > 0 {
      DemoRun(doc, k - 1);
      DemoStep(doc, k - 1);
      ExtendRun(DemoState(doc, 0), DemoActions(doc, k - 1), DemoState(doc, k - 1), DemoAction(doc, k - 1), DemoState(doc, k));
    }
  }

  predicate SameSys(s: Sys, t: Sys) {
    && s.dir.files == t.dir.files && s.dir.visible == t.dir.visible && s.dir.durable == t.dir.durable
    && s.procs == t.procs && s.children == t.children && s.bound == t.bound && s.sound == t.sound
  }

  lemma ExtendRun(s0: Sys, acts: seq<Action>, s: Sys, a: Action, t: Sys)
    requires Exec(s0, acts) == Some(s) && Enabled(s, a) && SameSys(Next(s, a), t)
    ensures Exec(s0, acts + [a]) == Some(t)
  {
    assert (acts + [a])[..|acts|] == acts;
  }

  /** A staging name of the published inode is dropped only once the final name is durable. */
  lemma StagingDroppedOnlyAfterDurable(s0: Sys, acts: seq<Action>, s: Sys, a: Action, tag: nat)
    requires Reaches(s0, acts, s) && s.sound && Enabled(s, a) && !a.PowerLoss?
    requires SameFile(s.dir, tag) && !SameFile(Next(s, a).dir, tag)
    ensures Final in s.dir.durable
  {
    RunKeepsInv(s0, acts, s);
    StepKeepsFinal(s, a);
  }

  /** A reader that set out when the final name was visible and returned normally leaves the
      final name durable, for good. */
  lemma ReaderLeavesFinalDurable(s0: Sys, acts: seq<Action>, s: Sys, p: Pid)
    requires Reaches(s0, acts, s) && s.sound
    requires p in s.procs && s.procs[p] == Reader(true, Confirmed)
    ensures Final in s.dir.visible && Final in s.dir.durable && s.dir.durable[Final] == s.dir.visible[Final]
  {
    RunKeepsInv(s0, acts, s);
  }

  /** A publisher that raised the uncertain error preserved two names of the same inode, one of
      them durable, unless the final name is durable anyway. */
  lemma UncertainKeepsBothNames(s0: Sys, acts: seq<Action>, s: Sys, p: Pid)
    requires Reaches(s0, acts, s) && At(s, p, Uncertain)
    ensures Final in s.dir.durable || Backs(s.dir, s.procs[p].tag)
  {
    RunKeepsInv(s0, acts, s);
  }

  // ---------------------------------------------------------------- store initialisation

  /** All initialisers that ever return normally are bound to one instance, whose database file is
      then durable under the final name - now and after any continuation of the run. */
  lemma InitializersAgree(s0: Sys, acts: seq<Action>, s: Sys, more: seq<Action>, t: Sys)
    requires Reaches(s0, acts, s) && Exec(s, more) == Some(t)
    requires s.bound != []
    ensures forall k :: 0 <= k < |s.bound| ==> s.bound[k] == s.bound[0]
    ensures Final in s.dir.durable
    ensures Final in t.dir.durable && FinalFile(t.dir) == Some(File(s.bound[0], true, s.bound[0]))
    ensures forall k :: 0 <= k < |t.bound| ==> t.bound[k] == s.bound[0]
  {
    RunKeepsInv(s0, acts, s);
    DurableFinalNeverRepointed(s0, acts, s, more, t);
  }
}
