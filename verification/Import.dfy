/**
 Publication of a migrated queue state: an exclusive directory rename, an external receipt
 published without clobbering, a rollback, and an explicit "indeterminate" outcome.

 One importer runs its operations in order; each of them may fail, with or without having
 taken effect, or be interrupted.  Meanwhile other programs may create files under any absent
 name, and the kernel may write directory entries back at any time.
 */
module Import {
  import opened FileSystem

  /** The names this run works with, in the parent of the destination and of the receipt. */
  datatype Path = Dest | Candidate | Receipt | ReceiptTmp

  /** `ReceiptDoc` is a receipt of this very run; whatever others write is `Foreign`. */
  datatype Content = StateTree | Unfinished | Foreign | ReceiptDoc(succeeded: bool, published: bool)
  type Tree = Disk<Path, Content>

  datatype Kind = Os | Interrupt
  datatype Fault = Fine | Fails(kind: Kind, effect: bool, wrote: set<Path>)

  /** Everything the run cannot know, by the number of the operation. */
  datatype Schedule = Schedule(
    faults: nat -> Fault,
    foreign: nat -> set<Path>,    // names other programs try to create
    kernel: nat -> set<Path>,     // entries the kernel happens to write back
    sameParent: bool)

  /** What an operation was.  A probe also tells whether the names it asks for were free; a link or rename, whether
      it took effect; an inspection after a failed rename, whether that rename had; a rollback, whether the run
      had already gone past publication; the way out of the receipt writer, whether the success receipt is there. */
  datatype Op =
    | Plain                               // of a failure handler
    | Probe(free: bool)                   // names that have to be absent, or an exclusive creation
    | Verify                              // integrity of the candidate and the receipt embedded in it
    | Reopen                              // the published destination, opened and verified again
    | Fill                                // writing and syncing the staging file of a receipt
    | Settle                              // a directory sync
    | Guard                               // a path-boundary check
    | Unstage                             // dropping the staging name of a durable receipt
    | Link(success: bool, took: bool)     // of a success or of a failure receipt
    | SameFile                            // the identity check of a failed receipt publication
    | Leave(attested: bool)               // the writer's last look for its staging name
    | Sweep(attested: bool)               // ... and the removal of it
    | LastCheck                           // the path check behind the success receipt
    | PublishRename(moved: bool)
    | PublishStat(moved: bool)
    | RollbackCheck(late: bool)
    | RollbackRename(moved: bool, late: bool)
    | RollbackSettle(late: bool)

  /** The operations whose interruption escapes every handler that knows where the state is. */
  predicate MovesState(op: Op) {
    op.PublishRename? || op.PublishStat? || op.RollbackCheck? || op.RollbackRename? || op.RollbackSettle?
  }

  /** The operations behind a visible success receipt whose interruption makes the run take the state back. */
  predicate Revokes(op: Op) {
    (op.Leave? && op.attested) || (op.Sweep? && op.attested) || op.LastCheck?
  }

  predicate Interrupts(f: Fault) {
    f.Fails? && f.kind.Interrupt?
  }

  predicate TakesEffect(f: Fault) {
    f.Fine? || f.effect
  }

  /** Where an interrupt of an operation that moves the state leaves it: at the destination or not. */
  predicate LeavesAtDest(op: Op) {
    || ((op.PublishRename? || op.PublishStat?) && op.moved)
    || op.RollbackCheck? || (op.RollbackRename? && !op.moved)
  }

  /** What the failure receipt then says about publication. */
  predicate SaysPublished(op: Op) {
    (op.RollbackCheck? || op.RollbackRename? || op.RollbackSettle?) && op.late
  }

  /** The operation came off: nothing was in its way and nothing failed.  Only the removal of a staging name and
      the look for it may fail, unless interrupted. */
  predicate Passes(op: Op, f: Fault) {
    !Blocked(op) && (f.Fine? || (Tolerated(op) && f.kind.Os?))
  }

  predicate Blocked(op: Op) {
    (op.Probe? && !op.free) || (op.Link? && !op.took) || (op.PublishRename? && !op.moved)
  }

  predicate Tolerated(op: Op) {
    op.Unstage? || op.Leave? || op.Sweep?
  }

  /** A rename from one of the two names of the state. */
  function RenameOp(from: Path, moved: bool, late: bool): (op: Op)
    ensures MovesState(op) && !op.SameFile? && !Revokes(op) && !op.Link?
    ensures from.Candidate? ==> op == PublishRename(moved)
    ensures LeavesAtDest(op) <==> moved == from.Candidate?
  {
    if from.Candidate? then PublishRename(moved) else RollbackRename(moved, late)
  }

  /** An effective link of the success receipt. */
  predicate LinksSuccess(op: Op) {
    op.Link? && op.success && op.took
  }

  /** A link of the success receipt took effect and still reported an error, and so did the check of it. */
  predicate BlindAt(ops: seq<Op>, faults: nat -> Fault, k: nat) {
    && 0 < k < |ops| && LinksSuccess(ops[k - 1]) && faults(k - 1).Fails? && faults(k - 1).effect
    && ops[k].SameFile? && faults(k).Fails?
  }

  /** An interrupt behind a visible success receipt. */
  predicate RevokesAt(ops: seq<Op>, faults: nat -> Fault, k: nat) {
    k < |ops| && Revokes(ops[k]) && Interrupts(faults(k))
  }

  /** The run loses sight of its own success receipt. */
  predicate SlipsAt(ops: seq<Op>, faults: nat -> Fault, k: nat) {
    BlindAt(ops, faults, k) || RevokesAt(ops, faults, k)
  }

  predicate SticksAt(ops: seq<Op>, faults: nat -> Fault, k: nat) {
    k < |ops| && MovesState(ops[k]) && Interrupts(faults(k))
  }

  predicate SlipsNow(ops: seq<Op>, faults: nat -> Fault, op: Op) {
    || (&& op.SameFile? && ops != [] && LinksSuccess(ops[|ops| - 1])
        && faults(|ops| - 1).Fails? && faults(|ops| - 1).effect && faults(|ops|).Fails?)
    || (Revokes(op) && Interrupts(faults(|ops|)))
  }

  /** Whether a run has slipped, and where it first stuck, told by its operations and their faults. */
  function Slipped(ops: seq<Op>, faults: nat -> Fault): bool {
    ops != [] && (Slipped(ops[..|ops| - 1], faults) || SlipsNow(ops[..|ops| - 1], faults, ops[|ops| - 1]))
  }

  function StuckAt(ops: seq<Op>, faults: nat -> Fault): Option<nat> {
    if ops == [] then None
    else
      var before := StuckAt(ops[..|ops| - 1], faults);
      if before.None? && SticksAt(ops, faults, |ops| - 1) then Some(|ops| - 1) else before
  }

  /** How many operations did not come off. */
  function Missed(ops: seq<Op>, faults: nat -> Fault): nat {
    if ops == [] then 0
    else Missed(ops[..|ops| - 1], faults) + if Passes(ops[|ops| - 1], faults(|ops| - 1)) then 0 else 1
  }

  lemma {:induction false} MissedMeans(ops: seq<Op>, faults: nat -> Fault)
    ensures Missed(ops, faults) == 0 <==> forall k | 0 <= k < |ops| :: Passes(ops[k], faults(k))
    decreases |ops|
  {
    if ops != [] {
      var front := ops[..|ops| - 1];
      MissedMeans(front, faults);
      assert forall k | 0 <= k < |front| :: front[k] == ops[k];
    }
  }

  /** Where the candidate and then the published destination passed their verification. */
  datatype Marks = Marks(verified: Option<nat>, reopened: Option<nat>)

  predicate MarksMean(m: Marks, ops: seq<Op>, faults: nat -> Fault) {
    && (m.verified.Some? ==> m.verified.value < |ops| && ops[m.verified.value].Verify? && faults(m.verified.value).Fine?)
    && (m.reopened.Some? ==> m.reopened.value < |ops| && ops[m.reopened.value].Reopen? && faults(m.reopened.value).Fine?)
  }

  /** One count exceeds the other exactly if something went wrong. */
  predicate Adds(before: nat, after: nat, wrong: bool) {
    if wrong then before < after else before == after
  }

  lemma TraceGrows(ops: seq<Op>, faults: nat -> Fault, op: Op)
    ensures Missed(ops + [op], faults) == Missed(ops, faults) + if Passes(op, faults(|ops|)) then 0 else 1
    ensures Slipped(ops + [op], faults) == (Slipped(ops, faults) || SlipsNow(ops, faults, op))
    ensures StuckAt(ops + [op], faults)
         == if StuckAt(ops, faults).None? && MovesState(op) && Interrupts(faults(|ops|)) then Some(|ops|) else StuckAt(ops, faults)
  {
    assert (ops + [op])[..|ops|] == ops;
  }

  lemma {:induction false} SlippedMeans(ops: seq<Op>, faults: nat -> Fault)
    ensures Slipped(ops, faults) <==> exists k: nat :: SlipsAt(ops, faults, k)
    decreases |ops|
  {
    if ops != [] {
      var front := ops[..|ops| - 1];
      SlippedMeans(front, faults);
      assert forall k: nat :: SlipsAt(front, faults, k) ==> SlipsAt(ops, faults, k);
      assert forall k: nat :: SlipsAt(ops, faults, k) && k + 1 < |ops| ==> SlipsAt(front, faults, k);
      assert SlipsNow(front, faults, ops[|ops| - 1]) <==> SlipsAt(ops, faults, |ops| - 1);
    }
  }

  lemma {:induction false} StuckMeans(ops: seq<Op>, faults: nat -> Fault)
    ensures StuckAt(ops, faults).Some? ==> SticksAt(ops, faults, StuckAt(ops, faults).value)
    ensures StuckAt(ops, faults).Some? <==> exists k: nat :: SticksAt(ops, faults, k)
    decreases |ops|
  {
    if ops != [] {
      var front := ops[..|ops| - 1];
      StuckMeans(front, faults);
      assert forall k: nat :: SticksAt(front, faults, k) ==> SticksAt(ops, faults, k);
      assert forall k: nat :: SticksAt(ops, faults, k) && k + 1 < |ops| ==> SticksAt(front, faults, k);
    }
  }

  // ---------------------------------------------------------------- what a directory tree shows

  predicate AtDest(d: Tree, state: Inode) {
    Entry(d.visible, Dest) == Some(state)
  }

  predicate AtCandidate(d: Tree, state: Inode) {
    Entry(d.visible, Candidate) == Some(state)
  }

  predicate DestDurable(d: Tree, state: Inode) {
    AtDest(d, state) && Entry(d.durable, Dest) == Some(state)
  }

  /** A receipt of this run is reachable through the final receipt name. */
  predicate Attests(d: Tree, names: map<Path, Inode>) {
    Receipt in names && names[Receipt] in d.files && d.files[names[Receipt]].intended.ReceiptDoc?
  }

  /** ... and it says that the state was imported and published. */
  predicate AttestsImport(d: Tree, names: map<Path, Inode>) {
    Attests(d, names) && d.files[names[Receipt]].intended == ReceiptDoc(true, true)
  }

  /** No receipt of a successful import without the imported state. */
  predicate Honest(d: Tree, state: Inode) {
    AttestsImport(d, d.visible) || AttestsImport(d, d.durable) ==> DestDurable(d, state)
  }

  /** An honest directory tree stays honest through any power loss. */
  lemma HonestSurvivesCrash(d: Tree, state: Inode, picked: set<Path>, torn: map<Inode, Content>)
    requires Honest(d, state)
    ensures var c := Crash(d, picked, torn);
            && Honest(c, state)
            && (AttestsImport(c, c.visible) ==> AtDest(c, state))
  {
    var w, c := Writeback(d, picked), Crash(d, picked, torn);
    assert Entry(w.durable, Receipt) == if Receipt in picked then Entry(d.visible, Receipt) else Entry(d.durable, Receipt);
    assert Entry(w.durable, Dest) == if Dest in picked then Entry(d.visible, Dest) else Entry(d.durable, Dest);
  }

  /** Honest all along. */
  ghost predicate AllHonest(past: seq<Tree>, state: Inode) {
    past == [] || (AllHonest(past[..|past| - 1], state) && Honest(past[|past| - 1], state))
  }

  lemma {:induction false} AllHonestMeans(past: seq<Tree>, state: Inode, k: nat)
    requires AllHonest(past, state) && k < |past|
    ensures Honest(past[k], state)
    decreases |past|
  {
    if k + 1 < |past| {
      AllHonestMeans(past[..|past| - 1], state, k);
    }
  }

  ghost predicate Closed(d: Tree, next: Inode) {
    && (forall i :: i in d.files ==> i < next)
    && (forall n :: n in d.visible ==> d.visible[n] in d.files)
    && (forall n :: n in d.durable ==> d.durable[n] in d.files)
  }

  /** What other programs and the kernel may do to the tree between two operations: nothing that
      is visible changes, new names are foreign, entries on disk are old or visible ones. */
  ghost predicate Meddled(d: Tree, d': Tree, state: Inode) {
    && (forall i :: i in d.files ==> i in d'.files && d'.files[i] == d.files[i])
    && (forall n :: n in d.visible ==> n in d'.visible && d'.visible[n] == d.visible[n])
    && (forall n :: n in d'.visible && n !in d.visible ==>
          && d'.visible[n] != state && d'.visible[n] !in d.files
          && d'.visible[n] in d'.files && d'.files[d'.visible[n]].intended == Foreign)
    && (forall n :: Entry(d'.durable, n) == Entry(d.durable, n) || Entry(d'.durable, n) == Entry(d'.visible, n))
  }

  function Meddling(d: Tree, names: set<Path>, unused: Inode, picked: set<Path>): Tree {
    Writeback(d.(files := d.files[unused := File(Foreign, true, Foreign)],
                 visible := (map n | n in names :: unused) + d.visible), picked)
  }

  lemma MeddlingIsHarmless(d: Tree, names: set<Path>, unused: Inode, picked: set<Path>, state: Inode)
    requires Closed(d, unused) && state < unused
    ensures var d' := Meddling(d, names, unused, picked); Meddled(d, d', state) && Closed(d', unused + 1)
  {
    var d' := Meddling(d, names, unused, picked);
    forall n | n in d'.durable
      ensures d'.durable[n] in d'.files
    {
      assert Entry(d'.durable, n) == Entry(d.durable, n) || Entry(d'.durable, n) == Entry(d'.visible, n);
    }
  }

  lemma MeddlingKeepsHonest(d: Tree, d': Tree, state: Inode, next: Inode)
    requires Closed(d, next) && Meddled(d, d', state) && Honest(d, state)
    ensures Honest(d', state)
  {
    assert Entry(d'.durable, Receipt) == Entry(d.durable, Receipt) || Entry(d'.durable, Receipt) == Entry(d'.visible, Receipt);
    assert Entry(d'.durable, Dest) == Entry(d.durable, Dest) || Entry(d'.durable, Dest) == Entry(d'.visible, Dest);
  }

  /** The state this run built is at one of its two names. */
  predicate Held(d: Tree, state: Inode) {
    AtDest(d, state) || AtCandidate(d, state)
  }

  /** The final receipt name, once there, is neither removed nor re-pointed. */
  predicate ReceiptKept(d: Tree, d': Tree) {
    Receipt in d.visible ==> Receipt in d'.visible && d'.visible[Receipt] == d.visible[Receipt]
  }

  /** Along a run no receipt is removed, and unless the candidate was dropped neither is the state. */
  ghost predicate Kept(past: seq<Tree>, state: Inode, dropped: bool) {
    |past| <= 1 || (Kept(past[..|past| - 1], state, dropped) && KeptOver(past[|past| - 2], past[|past| - 1], state, dropped))
  }

  predicate KeptOver(d: Tree, d': Tree, state: Inode, dropped: bool) {
    ReceiptKept(d, d') && (!dropped ==> (Held(d, state) ==> Held(d', state)) && FoundKept(d, d', state))
  }

  /** Whatever else is at the candidate name stays there. */
  predicate FoundKept(d: Tree, d': Tree, state: Inode) {
    Candidate in d.visible && d.visible[Candidate] != state ==> Entry(d'.visible, Candidate) == Entry(d.visible, Candidate)
  }

  lemma KeptGrows(past: seq<Tree>, state: Inode, dropped: bool, d: Tree)
    requires past != [] && Kept(past, state, dropped) && KeptOver(past[|past| - 1], d, state, dropped)
    ensures Kept(past + [d], state, dropped)
  {
    assert (past + [d])[..|past|] == past;
  }

  lemma {:induction false} KeptWeakens(past: seq<Tree>, state: Inode, dropped: bool)
    requires Kept(past, state, dropped)
    ensures Kept(past, state, true)
    decreases |past|
  {
    if |past| > 1 {
      KeptWeakens(past[..|past| - 1], state, dropped);
    }
  }

  lemma {:induction false} KeptMeans(past: seq<Tree>, state: Inode, dropped: bool, j: nat, k: nat)
    requires Kept(past, state, dropped) && j <= k < |past|
    ensures KeptOver(past[j], past[k], state, dropped)
    decreases |past|
  {
    if k + 1 < |past| {
      KeptMeans(past[..|past| - 1], state, dropped, j, k);
    } else if j < k {
      KeptMeans(past[..|past| - 1], state, dropped, j, k - 1);
    }
  }

  /** No receipt of this run can be read, now or after a power loss. */
  predicate NoReceipt(d: Tree) {
    !Attests(d, d.visible) && !Attests(d, d.durable)
  }

  /** The state this run built is not at the destination, now or after a power loss. */
  predicate Absent(d: Tree, state: Inode) {
    Entry(d.visible, Dest) != Some(state) && Entry(d.durable, Dest) != Some(state)
  }

  /** The state this run built stays where it is. */
  predicate StateStays(d: Tree, d': Tree, state: Inode) {
    && (AtDest(d, state) <==> AtDest(d', state))
    && (AtCandidate(d, state) <==> AtCandidate(d', state))
    && (DestDurable(d, state) ==> DestDurable(d', state))
    && (Absent(d, state) ==> Absent(d', state))
  }

  lemma MeddlingMovesNothing(d: Tree, d': Tree, state: Inode, next: Inode)
    requires Closed(d, next) && Meddled(d, d', state)
    ensures StateStays(d, d', state)
    ensures NoReceipt(d) ==> NoReceipt(d')
  {
    assert Entry(d'.durable, Receipt) == Entry(d.durable, Receipt) || Entry(d'.durable, Receipt) == Entry(d'.visible, Receipt);
    assert Entry(d'.durable, Dest) == Entry(d.durable, Dest) || Entry(d'.durable, Dest) == Entry(d'.visible, Dest);
  }

  /** Inode `i` holds `doc` and is what the name `n` shows. */
  predicate Shows(d: Tree, n: Path, i: Inode, doc: Content) {
    Entry(d.visible, n) == Some(i) && i in d.files && d.files[i] == File(doc, true, doc)
  }

  /** Inode `i` is meant to hold `doc` and carries the staging name. */
  predicate Drafts(d: Tree, i: Inode, doc: Content) {
    Entry(d.visible, ReceiptTmp) == Some(i) && i in d.files && d.files[i].intended == doc
  }

  predicate Secure(d: Tree, n: Path, i: Inode, doc: Content) {
    Shows(d, n, i, doc) && Entry(d.durable, n) == Some(i)
  }

  lemma MeddlingKeepsShown(d: Tree, d': Tree, state: Inode, n: Path, i: Inode, doc: Content)
    requires Meddled(d, d', state)
    ensures Shows(d, n, i, doc) ==> Shows(d', n, i, doc)
    ensures Secure(d, n, i, doc) ==> Secure(d', n, i, doc)
  {
    assert Entry(d'.durable, n) == Entry(d.durable, n) || Entry(d'.durable, n) == Entry(d'.visible, n);
  }

  /** All receipts of this run that can be read, now or after a power loss, say `doc`. */
  predicate OnlySays(d: Tree, doc: Content) {
    && (Attests(d, d.visible) ==> d.files[d.visible[Receipt]].intended == doc)
    && (Attests(d, d.durable) ==> d.files[d.durable[Receipt]].intended == doc)
  }

  /** The final receipt name keeps showing what it shows, and no other receipt of this run appears. */
  ghost predicate ReceiptStays(d: Tree, d': Tree) {
    && (Receipt in d.visible && d.visible[Receipt] in d.files ==>
          && Receipt in d'.visible && d'.visible[Receipt] == d.visible[Receipt]
          && d.visible[Receipt] in d'.files && d'.files[d.visible[Receipt]] == d.files[d.visible[Receipt]])
    && (NoReceipt(d) ==> NoReceipt(d'))
    && (forall doc :: OnlySays(d, doc) ==> OnlySays(d', doc))
  }

  lemma MeddlingKeepsReceipt(d: Tree, d': Tree, state: Inode, next: Inode)
    requires Closed(d, next) && Meddled(d, d', state)
    ensures ReceiptStays(d, d')
  {
    assert Entry(d'.durable, Receipt) == Entry(d.durable, Receipt) || Entry(d'.durable, Receipt) == Entry(d'.visible, Receipt);
  }

  /** A success receipt stays, and stays durable. */
  predicate ImportStays(d: Tree, d': Tree) {
    AttestsImport(d, d.visible) ==>
      && AttestsImport(d', d'.visible)
      && (AttestsImport(d, d.durable) ==> AttestsImport(d', d'.durable))
  }

  /** In short: no receipt appears, and a success receipt stays. */
  predicate ReceiptHolds(d: Tree, d': Tree) {
    (NoReceipt(d) ==> NoReceipt(d')) && ImportStays(d, d')
  }

  /** What a step that touches none of this run's names leaves as it was. */
  ghost predicate Quiet(d: Tree, d': Tree, state: Inode) {
    && StateStays(d, d', state) && ReceiptStays(d, d') && ReceiptHolds(d, d')
    && (forall n, i, doc :: Shows(d, n, i, doc) ==> Shows(d', n, i, doc))
    && (forall n, i, doc :: Secure(d, n, i, doc) ==> Secure(d', n, i, doc))
    && (forall i, doc :: Drafts(d, i, doc) ==> Drafts(d', i, doc))
    && NewNamesAreNew(d, d')
  }

  /** Names stay, and a name that appears is on an inode that was not there. */
  ghost predicate NewNamesAreNew(d: Tree, d': Tree) {
    && (forall n :: n in d.visible ==> n in d'.visible && d'.visible[n] == d.visible[n])
    && (forall n :: n in d'.visible && n !in d.visible ==> d'.visible[n] !in d.files)
  }

  lemma MeddlingIsQuiet(d: Tree, d': Tree, state: Inode, next: Inode)
    requires Closed(d, next) && Meddled(d, d', state)
    ensures Quiet(d, d', state)
  {
    MeddlingMovesNothing(d, d', state, next);
    MeddlingKeepsReceipt(d, d', state, next);
    assert Entry(d'.durable, Receipt) == Entry(d.durable, Receipt) || Entry(d'.durable, Receipt) == Entry(d'.visible, Receipt);
    assert ImportStays(d, d');
    forall n, i, doc
      ensures Shows(d, n, i, doc) ==> Shows(d', n, i, doc)
      ensures Secure(d, n, i, doc) ==> Secure(d', n, i, doc)
    {
      MeddlingKeepsShown(d, d', state, n, i, doc);
    }
  }

  /** The names of the receipt are there or not as before. */
  predicate SameNames(d: Tree, d': Tree) {
    forall n: Path | n.Receipt? || n.ReceiptTmp? :: n in d'.visible <==> n in d.visible
  }

  /** The final and the staging name of the receipt show one file. */
  predicate TwoNames(d: Tree) {
    Receipt in d.visible && Entry(d.visible, ReceiptTmp) == Entry(d.visible, Receipt)
  }

  /** No name the run will use is taken. */
  predicate AllFree(d: Tree) {
    Dest !in d.visible && Candidate !in d.visible && Receipt !in d.visible && ReceiptTmp !in d.visible
  }

  /** What the visible receipt of this run says about publication is so. */
  predicate Truthful(d: Tree, state: Inode) {
    Attests(d, d.visible) ==> d.files[d.visible[Receipt]].intended.published == AtDest(d, state)
  }

  function Renamed(d: Tree, from: Path, to: Path, inode: Inode): Tree {
    d.(visible := (d.visible - {from})[to := inode])
  }

  lemma RenameTouchesNoReceipt(d: Tree, from: Path, to: Path, state: Inode, next: Inode)
    requires Closed(d, next) && from in {Dest, Candidate} && to in {Dest, Candidate} && from != to
    requires Entry(d.visible, from) == Some(state) && to !in d.visible
    ensures var d' := Renamed(d, from, to, state);
            && Closed(d', next) && ReceiptHolds(d, d') && KeptOver(d, d', state, false)
            && (NoReceipt(d) ==> Honest(d', state))
            && Entry(d'.visible, to) == Some(state) && Entry(d'.visible, from) == None
  {}

  function Dropped(d: Tree): Tree {
    d.(visible := d.visible - {Candidate})
  }

  lemma DroppingTouchesNoReceipt(d: Tree, state: Inode, next: Inode)
    requires Closed(d, next)
    ensures var d' := Dropped(d);
            && Closed(d', next) && ReceiptHolds(d, d') && KeptOver(d, d', state, true)
            && (NoReceipt(d) ==> Honest(d', state))
            && (AtDest(d', state) <==> AtDest(d, state)) && (Absent(d, state) ==> Absent(d', state))
  {}

  function Drafted(d: Tree, i: Inode, doc: Content): Tree {
    d.(files := d.files[i := File(Unfinished, false, doc)], visible := d.visible[ReceiptTmp := i])
  }

  lemma DraftingIsHarmless(d: Tree, i: Inode, doc: Content, state: Inode)
    requires Closed(d, i) && state < i && NoReceipt(d) && ReceiptTmp !in d.visible
    ensures var d' := Drafted(d, i, doc);
            && Closed(d', i + 1) && Honest(d', state) && KeptOver(d, d', state, false)
            && StateStays(d, d', state) && NoReceipt(d') && Drafts(d', i, doc)
  {}

  function Filled(d: Tree, i: Inode, doc: Content): Tree {
    d.(files := d.files[i := File(doc, true, doc)])
  }

  lemma FillingIsHarmless(d: Tree, i: Inode, doc: Content, state: Inode, next: Inode)
    requires Closed(d, next) && NoReceipt(d) && Drafts(d, i, doc) && doc.ReceiptDoc?
    ensures var d' := Filled(d, i, doc);
            && Closed(d', next) && Honest(d', state) && KeptOver(d, d', state, false)
            && StateStays(d, d', state) && NoReceipt(d') && Drafts(d', i, doc) && Shows(d', ReceiptTmp, i, doc)
  {}

  function Built(d: Tree, state: Inode): Tree {
    d.(files := d.files[state := File(StateTree, true, StateTree)], visible := d.visible[Candidate := state])
  }

  lemma BuildingIsHarmless(d: Tree, state: Inode, next: Inode)
    requires Closed(d, next) && state < next && NoReceipt(d) && Absent(d, state) && Candidate !in d.visible
    ensures var d' := Built(d, state);
            && Closed(d', next) && Honest(d', state) && KeptOver(d, d', state, false)
            && Absent(d', state) && NoReceipt(d') && AtCandidate(d', state)
  {}

  function Unstaged(d: Tree): Tree {
    d.(visible := d.visible - {ReceiptTmp})
  }

  lemma UnstagingIsHarmless(d: Tree, state: Inode, next: Inode)
    requires Closed(d, next)
    ensures var d' := Unstaged(d);
            && Closed(d', next) && (Honest(d, state) ==> Honest(d', state)) && KeptOver(d, d', state, false)
            && StateStays(d, d', state) && ReceiptStays(d, d')
            && forall i, doc :: Secure(d, Receipt, i, doc) ==> Secure(d', Receipt, i, doc)
  {}

  function Linked(d: Tree, i: Inode): Tree {
    d.(visible := d.visible[Receipt := i])
  }

  lemma LinkingIsHarmless(d: Tree, i: Inode, doc: Content, state: Inode, next: Inode)
    requires Closed(d, next) && NoReceipt(d) && Receipt !in d.visible && Secure(d, ReceiptTmp, i, doc) && doc.ReceiptDoc?
    requires doc == ReceiptDoc(true, true) ==> DestDurable(d, state)
    ensures var d' := Linked(d, i);
            && Closed(d', next) && Honest(d', state) && KeptOver(d, d', state, false)
            && StateStays(d, d', state) && OnlySays(d', doc)
            && Secure(d', ReceiptTmp, i, doc) && Shows(d', Receipt, i, doc)
  {}

  /** How an import ends.  `says` is what a failure receipt claims about publication; `stuck` tells
      whether an interrupt escaped from a rename or a rollback. */
  datatype Report =
    | Imported
    | Unclear
    | Failed(says: bool, stuck: bool)

  datatype RollbackResult = RolledBack | RollbackUnclear | RollbackInterrupted

  datatype PublishResult =
    | Moved
    | PublishFailed(kind: Kind)
    | PublishUnclear
    | PublishInterrupted        // an interrupt hit a rename or a rollback and escaped

  datatype WriteResult =
    | Written
    | WriteIndeterminate
    | WriteFailed(kind: Kind)

  /** Writing some more entries back is again no more than meddling. */
  lemma SyncIsHarmless(d: Tree, d1: Tree, d2: Tree, state: Inode, next: Inode)
    requires Closed(d1, next) && Meddled(d, d1, state) && d2.files == d1.files && d2.visible == d1.visible
    requires forall n :: Entry(d2.durable, n) == Entry(d1.durable, n) || Entry(d2.durable, n) == Entry(d1.visible, n)
    ensures Meddled(d, d2, state) && Meddled(d1, d2, state) && Closed(d2, next)
  {
    forall n
      ensures Entry(d2.durable, n) == Entry(d.durable, n) || Entry(d2.durable, n) == Entry(d2.visible, n)
      ensures n in d2.durable ==> d2.durable[n] in d2.files
    {
      assert Entry(d2.durable, n) == Entry(d1.durable, n) || Entry(d2.durable, n) == Entry(d1.visible, n);
      assert Entry(d1.durable, n) == Entry(d.durable, n) || Entry(d1.durable, n) == Entry(d1.visible, n);
    }
  }

  class Importer {
    const plan: Schedule
    const state: Inode          // the inode of the state this run builds
    var disk: Tree
    var clock: nat
    var next: Inode
    /** The operations so far; whether any of them did not come off; whether the run lost sight of its own success receipt; the first interrupt of an
        operation that moves the state; the moment the candidate was removed. */
    ghost var ops: seq<Op>
    ghost var marks: Marks
    ghost var missed: nat
    ghost var slipped: bool
    ghost var stuckAt: Option<nat>
    ghost var dropped: Option<nat>
    ghost var handled: Option<bool>      // the failure handler has run, with or without a clean-up
    /** Every tree there ever was, latest last. */
    ghost const origin: Tree
    ghost var past: seq<Tree>

    ghost predicate Valid()
      reads this`disk, this`next, this`past, this`dropped, this`clock, this`ops, this`missed, this`slipped, this`stuckAt, this`marks
    {
      Sound() && Traced() && (!slipped ==> AllHonest(past, state))
    }

    /** The history tells what the flags say. */
    ghost predicate Traced()
      reads this`clock, this`ops, this`missed, this`slipped, this`stuckAt, this`marks
    {
      && |ops| == clock && slipped == Slipped(ops, plan.faults) && stuckAt == StuckAt(ops, plan.faults)
      && missed == Missed(ops, plan.faults) && MarksMean(marks, ops, plan.faults)
    }

    ghost predicate Sound()
      reads this`disk, this`next, this`past, this`dropped
    {
      && state < next && Closed(disk, next)
      && |past| > 0 && past[0] == origin && past[|past| - 1] == disk
      && Kept(past, state, dropped.Some?) && (dropped.Some? ==> dropped.value < |past| && Candidate !in past[dropped.value].visible)
    }

    /** The run goes on; the state is neither moved by an interrupted operation nor removed. */
    twostate predicate Onward()
      reads this
    {
      && stuckAt == old(stuckAt) && dropped == old(dropped) && old(ops) <= ops && old(clock) <= clock
      && old(missed) <= missed && marks == old(marks)
    }

    /** ... and the success receipt is not lost sight of. */
    twostate predicate SameTrace()
      reads this
    {
      Onward() && slipped == old(slipped)
    }

    constructor (plan: Schedule, disk: Tree, next: Inode)
      requires Closed(disk, next)
      requires forall i :: i in disk.files ==> !disk.files[i].intended.ReceiptDoc?
      ensures Valid() && this.plan == plan && this.disk == disk && clock == 0 && origin == disk
      ensures handled == None && marks == Marks(None, None) && missed == 0 && !slipped && stuckAt == None && dropped == None
      ensures state !in disk.files && past == [disk]
    {
      this.plan, this.disk, this.state, this.next := plan, disk, next, next + 1;
      clock, marks, missed, slipped, past := 0, Marks(None, None), 0, false, [disk];
      ops, stuckAt, dropped, handled, origin := [], None, None, None, disk;
      assert AllHonest([disk][..0], next);
    }

    /** The tree may become `d`. */
    ghost predicate MayBecome(d: Tree)
      reads this
    {
      Closed(d, next) && (!slipped ==> Honest(d, state)) && KeptOver(disk, d, state, dropped.Some?)
    }

    /** Record the tree after an operation. */
    method Become(d: Tree)
      requires Valid() && MayBecome(d)
      modifies this`disk, this`past
      ensures Valid() && disk == d && past == old(past) + [d]
    {
      KeptGrows(past, state, dropped.Some?, d);
      assert (past + [d])[..|past|] == past;
      disk := d;
      past := past + [d];
    }

    /** The tree becomes what others and the kernel make of it. */
    method Suffer(d: Tree)
      requires Valid() && Meddled(disk, d, state) && Closed(d, next)
      modifies this`disk, this`past
      ensures Valid() && disk == d && |past| > |old(past)|
    {
      if !slipped {
        MeddlingKeepsHonest(disk, d, state, next);
      }
      Become(d);
    }

    /** Others act. */
    method Others()
      requires Valid()
      modifies this`disk, this`past, this`next
      ensures Valid() && Quiet(old(disk), disk, state) && |past| > |old(past)|
      ensures disk.visible.Keys == old(disk.visible.Keys) + plan.foreign(clock)
      ensures plan.foreign(clock) == {} ==> disk.visible == old(disk.visible)
    {
      Interfere();
      MeddlingIsQuiet(old(disk), disk, state, old(next));
    }

    method Interfere()
      requires Valid()
      modifies this`disk, this`past, this`next
      ensures Valid() && Meddled(old(disk), disk, state) && |past| > |old(past)|
      ensures disk.visible.Keys == old(disk.visible.Keys) + plan.foreign(clock)
      ensures plan.foreign(clock) == {} ==> disk.visible == old(disk.visible)
    {
      var d := Meddling(disk, plan.foreign(clock), next, plan.kernel(clock));
      MeddlingIsHarmless(disk, plan.foreign(clock), next, plan.kernel(clock), state);
      next := next + 1;
      Suffer(d);
    }

    /** The next operation takes place: `f` is what it comes to. */
    method Tick(ghost op: Op) returns (f: Fault)
      requires Valid()
      modifies this`clock, this`ops, this`missed, this`slipped, this`stuckAt
      ensures Valid() && f == plan.faults(old(clock)) && clock == old(clock) + 1 && ops == old(ops) + [op]
      ensures Adds(old(missed), missed, !Passes(op, f))
      ensures slipped == (old(slipped) || SlipsNow(old(ops), plan.faults, op))
      ensures stuckAt == if old(stuckAt).None? && MovesState(op) && Interrupts(f) then Some(old(clock)) else old(stuckAt)
    {
      f := plan.faults(clock);
      TraceGrows(ops, plan.faults, op);
      ops := ops + [op];
      missed, slipped, stuckAt := Missed(ops, plan.faults), Slipped(ops, plan.faults), StuckAt(ops, plan.faults);
      clock := clock + 1;
    }

    /** The same for an operation that cannot make the run slip. */
    method Step(ghost op: Op) returns (f: Fault)
      requires Valid() && !op.SameFile? && !Revokes(op)
      modifies this`clock, this`ops, this`missed, this`slipped, this`stuckAt
      ensures Valid() && f == plan.faults(old(clock)) && clock == old(clock) + 1 && ops == old(ops) + [op]
      ensures slipped == old(slipped) && Adds(old(missed), missed, !Passes(op, f))
      ensures stuckAt == if old(stuckAt).None? && MovesState(op) && Interrupts(f) then Some(old(clock)) else old(stuckAt)
    {
      f := Tick(op);
    }

    /** Others act, then an operation that is neither a link nor an identity check takes place. */
    method Meddle(ghost op: Op) returns (f: Fault)
      requires Valid() && !op.SameFile? && !op.Link?
      modifies this
      ensures Valid() && Quiet(old(disk), disk, state) && dropped == old(dropped) && marks == old(marks)
      ensures f == plan.faults(old(clock)) && clock == old(clock) + 1 && ops == old(ops) + [op]
      ensures Adds(old(missed), missed, !Passes(op, f))
      ensures slipped == (old(slipped) || (Revokes(op) && Interrupts(f)))
      ensures stuckAt == if old(stuckAt).None? && MovesState(op) && Interrupts(f) then Some(old(clock)) else old(stuckAt)
      ensures disk.visible.Keys == old(disk.visible.Keys) + plan.foreign(old(clock))
      ensures plan.foreign(old(clock)) == {} ==> disk.visible == old(disk.visible)
      ensures |past| > |old(past)|
    {
      Others();
      f := Tick(op);
    }

    /** Others act, then a look at some names, or the exclusive creation of one. */
    method ProbeNames(names: set<Path>) returns (f: Fault, free: bool)
      requires Valid()
      modifies this
      ensures Valid() && Quiet(old(disk), disk, state) && SameTrace()
      ensures f == plan.faults(old(clock)) && clock == old(clock) + 1 && ops == old(ops) + [Probe(free)]
      ensures Adds(old(missed), missed, f.Fails? || !free) && free == (names !! disk.visible.Keys)
      ensures disk.visible.Keys == old(disk.visible.Keys) + plan.foreign(old(clock))
      ensures plan.foreign(old(clock)) == {} ==> disk.visible == old(disk.visible)
      ensures |past| > |old(past)|
    {
      Others();
      free := names !! disk.visible.Keys;
      f := Step(Probe(free));
    }

    /** Others act, then the operation takes place. */
    method Stir(ghost op: Op) returns (f: Fault)
      requires Valid() && !op.SameFile? && !Revokes(op)
      modifies this
      ensures Valid() && Meddled(old(disk), disk, state) && slipped == old(slipped) && dropped == old(dropped) && marks == old(marks)
      ensures f == plan.faults(old(clock)) && clock == old(clock) + 1 && ops == old(ops) + [op]
      ensures stuckAt == if old(stuckAt).None? && MovesState(op) && Interrupts(f) then Some(old(clock)) else old(stuckAt)
      ensures plan.foreign(old(clock)) == {} ==> disk.visible == old(disk.visible)
      ensures Adds(old(missed), missed, !Passes(op, f)) && |past| > |old(past)|
    {
      Interfere();
      f := Step(op);
    }

    /** Others act, then some entries of a directory are written back. */
    method WriteBack(dir: set<Path>, ghost op: Op) returns (f: Fault)
      requires Valid() && (op.Settle? || op.RollbackSettle?)
      modifies this
      ensures Valid() && Meddled(old(disk), disk, state) && slipped == old(slipped) && dropped == old(dropped) && marks == old(marks)
      ensures f == plan.faults(old(clock)) && clock == old(clock) + 1 && ops == old(ops) + [op]
      ensures stuckAt == if old(stuckAt).None? && MovesState(op) && Interrupts(f) then Some(old(clock)) else old(stuckAt)
      ensures plan.foreign(old(clock)) == {} ==> disk.visible == old(disk.visible)
      ensures Adds(old(missed), missed, !Passes(op, f))
      ensures f.Fine? ==> forall n :: n in dir ==> Entry(disk.durable, n) == Entry(disk.visible, n)
      ensures |past| > |old(past)|
    {
      f := Stir(op);
      var d := Writeback(disk, if f.Fine? then dir else f.wrote * dir);
      SyncIsHarmless(old(disk), disk, d, state, next);
      Suffer(d);
    }

    /** `_fsync_directory` of the directory that holds the names `dir`. */
    method Sync(dir: set<Path>, ghost op: Op) returns (f: Fault)
      requires Valid() && (op.Settle? || op.RollbackSettle?)
      modifies this
      ensures Valid() && Quiet(old(disk), disk, state) && slipped == old(slipped) && dropped == old(dropped) && marks == old(marks)
      ensures f == plan.faults(old(clock)) && clock == old(clock) + 1 && ops == old(ops) + [op]
      ensures stuckAt == if old(stuckAt).None? && MovesState(op) && Interrupts(f) then Some(old(clock)) else old(stuckAt)
      ensures plan.foreign(old(clock)) == {} ==> disk.visible == old(disk.visible)
      ensures Adds(old(missed), missed, f.Fails?)
      ensures f.Fine? ==> forall n :: n in dir ==> Entry(disk.durable, n) == Entry(disk.visible, n)
      ensures |past| > |old(past)|
    {
      f := WriteBack(dir, op);
      MeddlingIsQuiet(old(disk), disk, state, old(next));
    }

    /** From tick `k` on nothing fails and nobody interferes. */
    ghost predicate Calm(k: nat) {
      forall j :: k <= j ==> plan.faults(j).Fine? && plan.foreign(j) == {}
    }

    function ReceiptDir(): set<Path> {
      if plan.sameParent then {Dest, Candidate, Receipt, ReceiptTmp} else {Receipt, ReceiptTmp}
    }

    function DestDir(): set<Path> {
      if plan.sameParent then {Dest, Candidate, Receipt, ReceiptTmp} else {Dest, Candidate}
    }

    // -------------------------------------------------------------- the external receipt

    /** `os.open(O_CREAT | O_EXCL)` of the staging file of a receipt; a failure may leave an empty file that the
        writer does not know it has made. */
    method CreateReceipt(doc: Content) returns (i: Inode, failure: Option<Kind>)
      requires Valid() && NoReceipt(disk) && doc.ReceiptDoc?
      modifies this
      ensures Valid() && SameTrace() && NoReceipt(disk) && StateStays(old(disk), disk, state)
      ensures failure.None? ==> Drafts(disk, i, doc) && i != state
      ensures old(Calm(clock) && ReceiptTmp !in disk.visible && Receipt !in disk.visible) ==>
                failure.None? && Receipt !in disk.visible
      ensures Adds(old(missed), missed, failure.Some?)
      ensures Unlinked()
      ensures clock == old(clock) + 1
      ensures plan.foreign(old(clock)) == {} ==> (ReceiptTmp in disk.visible <==> ReceiptTmp in old(disk).visible || TakesEffect(plan.faults(old(clock))))
    {
      var f, free := ProbeNames({ReceiptTmp});
      i := next;
      if free && TakesEffect(f) {
        i := Draft(doc);
      }
      failure := if f.Fails? then Some(f.kind) else if free then None else Some(Os);
    }

    /** An empty staging file appears. */
    method Draft(doc: Content) returns (i: Inode)
      requires Valid() && NoReceipt(disk) && ReceiptTmp !in disk.visible && doc.ReceiptDoc?
      modifies this`disk, this`past, this`next
      ensures Valid() && NoReceipt(disk) && StateStays(old(disk), disk, state) && Drafts(disk, i, doc) && i != state
      ensures (Receipt in disk.visible <==> Receipt in old(disk).visible) && |past| > |old(past)|
      ensures ReceiptTmp in disk.visible
    {
      i := next;
      DraftingIsHarmless(disk, i, doc, state);
      next := next + 1;
      Become(Drafted(disk, i, doc));
    }

    /** Writing and syncing the staging file. */
    method FillReceipt(doc: Content, i: Inode) returns (failure: Option<Kind>)
      requires Valid() && NoReceipt(disk) && Drafts(disk, i, doc) && doc.ReceiptDoc?
      modifies this
      ensures Valid() && SameTrace() && NoReceipt(disk) && StateStays(old(disk), disk, state)
      ensures Drafts(disk, i, doc)
      ensures failure.None? ==> Shows(disk, ReceiptTmp, i, doc)
      ensures old(Calm(clock) && Receipt !in disk.visible) ==> failure.None? && Receipt !in disk.visible
      ensures Adds(old(missed), missed, failure.Some?)
      ensures Unlinked()
      ensures clock == old(clock) + 1
    {
      var f := Meddle(Fill);
      if f.Fine? {
        WriteStaging(doc, i);
      }
      failure := if f.Fails? then Some(f.kind) else None;
    }

    /** The staging file becomes complete. */
    method WriteStaging(doc: Content, i: Inode)
      requires Valid() && NoReceipt(disk) && Drafts(disk, i, doc) && doc.ReceiptDoc?
      modifies this`disk, this`past
      ensures Valid() && NoReceipt(disk) && StateStays(old(disk), disk, state) && Drafts(disk, i, doc) && Shows(disk, ReceiptTmp, i, doc)
      ensures disk.visible == old(disk.visible) && |past| > |old(past)|
    {
      FillingIsHarmless(disk, i, doc, state, next);
      Become(Filled(disk, i, doc));
    }

    /** Syncing the directory of the complete staging file. */
    method SyncStaging(doc: Content, i: Inode) returns (failure: Option<Kind>)
      requires Valid() && NoReceipt(disk) && Shows(disk, ReceiptTmp, i, doc)
      modifies this
      ensures Valid() && SameTrace() && NoReceipt(disk) && StateStays(old(disk), disk, state)
      ensures Shows(disk, ReceiptTmp, i, doc) && (failure.None? ==> Secure(disk, ReceiptTmp, i, doc))
      ensures old(Calm(clock) && Receipt !in disk.visible) ==> failure.None? && Receipt !in disk.visible
      ensures Adds(old(missed), missed, failure.Some?) && Unlinked()
      ensures clock == old(clock) + 1
    {
      var f := Sync(ReceiptDir(), Settle);
      failure := if f.Fails? then Some(f.kind) else None;
    }

    /** The path-boundary check behind it. */
    method GuardStaging(doc: Content, i: Inode) returns (failure: Option<Kind>)
      requires Valid() && NoReceipt(disk) && Secure(disk, ReceiptTmp, i, doc)
      modifies this
      ensures Valid() && SameTrace() && NoReceipt(disk) && StateStays(old(disk), disk, state) && Secure(disk, ReceiptTmp, i, doc)
      ensures old(Calm(clock) && Receipt !in disk.visible) ==> failure.None? && Receipt !in disk.visible
      ensures Adds(old(missed), missed, failure.Some?) && Unlinked()
      ensures clock == old(clock) + 1
    {
      var f := Meddle(Guard);
      failure := if f.Fails? then Some(f.kind) else None;
    }

    /** Both. */
    method SecureReceipt(doc: Content, i: Inode) returns (failure: Option<Kind>)
      requires Valid() && NoReceipt(disk) && Shows(disk, ReceiptTmp, i, doc)
      modifies this
      ensures Valid() && SameTrace() && NoReceipt(disk) && StateStays(old(disk), disk, state)
      ensures Shows(disk, ReceiptTmp, i, doc)
      ensures failure.None? ==> Secure(disk, ReceiptTmp, i, doc)
      ensures old(Calm(clock) && Receipt !in disk.visible) ==> failure.None? && Receipt !in disk.visible
      ensures Adds(old(missed), missed, failure.Some?)
      ensures Unlinked()
      ensures failure.None? ==> clock == old(clock) + 2
    {
      failure := SyncStaging(doc, i);
      if failure.None? {
        failure := GuardStaging(doc, i);
      }
    }

    /** The operation just done was not a link. */
    ghost predicate Unlinked()
      reads this`ops, this`clock
    {
      0 < clock == |ops| && !ops[clock - 1].Link?
    }

    /** If the operation just done was an effective link of a success receipt, it was this one and it failed. */
    ghost predicate LinkKnown(doc: Content, i: Inode)
      reads this
    {
      && |ops| == clock
      && (clock > 0 && LinksSuccess(ops[clock - 1]) ==> doc == ReceiptDoc(true, true) && Shows(disk, Receipt, i, doc))
      && (Shows(disk, Receipt, i, doc) && doc == ReceiptDoc(true, true) ==>
            clock > 0 && LinksSuccess(ops[clock - 1]) && plan.faults(clock - 1).Fails? && plan.faults(clock - 1).effect)
    }

    /** A success receipt is for a durable destination that was verified after its publication. */
    ghost predicate MayAttest(doc: Content)
      reads this`disk, this`marks
    {
      doc == ReceiptDoc(true, true) ==> DestDurable(disk, state) && marks.reopened.Some?
    }

    /** `os.link(temporary, path)`: first come, first served. */
    method LinkReceipt(doc: Content, i: Inode) returns (linked: bool, failure: Option<Kind>)
      requires Valid() && !slipped && NoReceipt(disk) && Secure(disk, ReceiptTmp, i, doc) && doc.ReceiptDoc? && i != state
      requires MayAttest(doc)
      modifies this
      ensures Valid() && SameTrace() && StateStays(old(disk), disk, state)
      ensures Secure(disk, ReceiptTmp, i, doc) && OnlySays(disk, doc)
      ensures linked <==> failure.None?
      ensures Adds(old(missed), missed, !linked)
      ensures linked ==> Shows(disk, Receipt, i, doc)
      ensures !linked ==> (NoReceipt(disk) || Shows(disk, Receipt, i, doc)) && LinkKnown(doc, i)
      ensures clock == old(clock) + 1
      ensures var f := plan.faults(old(clock));
              old(Receipt !in disk.visible) && plan.foreign(old(clock)) == {} && f.Fails? && f.effect ==>
                !linked && Shows(disk, Receipt, i, doc)
      ensures old(Calm(clock) && Receipt !in disk.visible) ==> linked
    {
      var f, took := TryLink(doc);
      if took {
        Publish(doc, i);
      }
      linked := took && f.Fine?;
      failure := if linked then None else if f.Fails? then Some(f.kind) else Some(Os);
    }

    /** The system call, before its effect on the names. */
    method TryLink(doc: Content) returns (f: Fault, took: bool)
      requires Valid() && !slipped
      modifies this
      ensures Valid() && SameTrace() && Quiet(old(disk), disk, state)
      ensures f == plan.faults(old(clock)) && clock == old(clock) + 1
      ensures ops == old(ops) + [Link(doc == ReceiptDoc(true, true), took)]
      ensures took == (Receipt !in disk.visible && TakesEffect(f)) && Adds(old(missed), missed, !took || f.Fails?)
      ensures plan.foreign(old(clock)) == {} ==> disk.visible == old(disk.visible)
    {
      Others();
      took := Receipt !in disk.visible && TakesEffect(plan.faults(clock));
      f := Tick(Link(doc == ReceiptDoc(true, true), took));
    }

    /** The receipt appears under its final name. */
    method Publish(doc: Content, i: Inode)
      requires Valid() && NoReceipt(disk) && Receipt !in disk.visible && Secure(disk, ReceiptTmp, i, doc) && doc.ReceiptDoc?
      requires MayAttest(doc)
      modifies this`disk, this`past
      ensures Valid() && StateStays(old(disk), disk, state) && OnlySays(disk, doc) && |past| > |old(past)|
      ensures Secure(disk, ReceiptTmp, i, doc) && Shows(disk, Receipt, i, doc)
    {
      LinkingIsHarmless(disk, i, doc, state, next);
      Become(Linked(disk, i));
    }

    /** The directory sync after the link. */
    method SettleReceipt(doc: Content, i: Inode) returns (failure: Option<Kind>)
      requires Valid() && Secure(disk, ReceiptTmp, i, doc) && Shows(disk, Receipt, i, doc)
      modifies this
      ensures Valid() && SameTrace() && StateStays(old(disk), disk, state) && ReceiptStays(old(disk), disk)
      ensures Shows(disk, Receipt, i, doc)
      ensures if failure.None? then Secure(disk, Receipt, i, doc) else Secure(disk, ReceiptTmp, i, doc)
      ensures old(Calm(clock)) ==> failure.None?
      ensures Adds(old(missed), missed, failure.Some?)
      ensures clock == old(clock) + 1
    {
      var f := Sync(ReceiptDir(), Settle);
      return if f.Fails? then Some(f.kind) else None;
    }

    /** Dropping the staging name; any other name stays. */
    method DropStaging(ghost op: Op) returns (f: Fault)
      requires Valid() && (op.Unstage? || op.Sweep?)
      modifies this
      ensures Valid() && Onward() && StateStays(old(disk), disk, state) && ReceiptStays(old(disk), disk)
      ensures slipped == (old(slipped) || (Revokes(op) && Interrupts(f))) && Adds(old(missed), missed, Interrupts(f))
      ensures forall i, doc :: Shows(old(disk), Receipt, i, doc) ==> Shows(disk, Receipt, i, doc)
      ensures forall i, doc :: Secure(old(disk), Receipt, i, doc) ==> Secure(disk, Receipt, i, doc)
      ensures f == plan.faults(old(clock)) && clock == old(clock) + 1
      ensures TakesEffect(f) ==> ReceiptTmp !in disk.visible
      ensures !TakesEffect(f) && plan.foreign(old(clock)) == {} ==> disk.visible == old(disk.visible)
    {
      f := Meddle(op);
      ForgetStaging(TakesEffect(f));
    }

    method ForgetStaging(takesEffect: bool)
      requires Valid()
      modifies this`disk, this`past
      ensures Valid() && StateStays(old(disk), disk, state) && ReceiptStays(old(disk), disk)
      ensures forall i, doc :: Shows(old(disk), Receipt, i, doc) ==> Shows(disk, Receipt, i, doc)
      ensures forall i, doc :: Secure(old(disk), Receipt, i, doc) ==> Secure(disk, Receipt, i, doc)
      ensures disk == if takesEffect then Unstaged(old(disk)) else old(disk)
    {
      if takesEffect {
        UnstagingIsHarmless(disk, state, next);
        Become(Unstaged(disk));
      }
    }

    /** The last steps of a publication that is already durable.  `kept` tells whether the staging name is to be
        left alone. */
    method SweepReceipt(doc: Content, i: Inode) returns (r: WriteResult, kept: bool)
      requires Valid() && !slipped && Secure(disk, Receipt, i, doc) && OnlySays(disk, doc)
      modifies this
      ensures Valid() && SameTrace() && StateStays(old(disk), disk, state) && OnlySays(disk, doc)
      ensures Secure(disk, Receipt, i, doc) && !r.WriteFailed? && (r.WriteIndeterminate? ==> !kept)
      ensures old(Calm(clock)) ==> r.Written?
      ensures Adds(old(missed), missed, !r.Written?)
      ensures r.Written? ==> clock >= old(clock) + 2
    {
      var f := Meddle(Guard);
      if f.Fine? {
        r, kept := FinishSweep(doc, i);
      } else {
        r, kept := WriteIndeterminate, false;
      }
    }

    method FinishSweep(doc: Content, i: Inode) returns (r: WriteResult, kept: bool)
      requires Valid() && !slipped && Secure(disk, Receipt, i, doc) && OnlySays(disk, doc)
      modifies this
      ensures Valid() && SameTrace() && StateStays(old(disk), disk, state) && OnlySays(disk, doc)
      ensures Secure(disk, Receipt, i, doc) && !r.WriteFailed? && (r.WriteIndeterminate? ==> !kept)
      ensures old(Calm(clock)) ==> r.Written?
      ensures Adds(old(missed), missed, !r.Written?)
      ensures clock == old(clock) + (if plan.faults(old(clock)).Fine? then 2 else 1)
    {
      var f := DropStaging(Unstage);
      kept := f.Fails? && f.kind.Os?;
      if f.Fine? {
        f := Sync(ReceiptDir(), Settle);
      }
      r := if f.Fine? || kept then Written else WriteIndeterminate;
    }

    /** The exception handler when the link is not known to have been made.  The identity check is an operation
        like any other; if it fails, in whatever way, the receipt counts as not published. */
    method ResolveReceiptFailure(doc: Content, i: Inode, kind: Kind) returns (r: WriteResult)
      requires Valid() && !slipped && Drafts(disk, i, doc) && doc.ReceiptDoc? && LinkKnown(doc, i)
      requires Shows(disk, Receipt, i, doc) ==> Secure(disk, ReceiptTmp, i, doc)
      requires NoReceipt(disk) || Shows(disk, Receipt, i, doc)
      modifies this
      ensures Valid() && Onward() && StateStays(old(disk), disk, state) && ReceiptStays(old(disk), disk)
      ensures Wrote(r, i, doc) && !r.Written?
      ensures r.WriteIndeterminate? ==> Shows(disk, Receipt, i, doc) && Secure(disk, ReceiptTmp, i, doc)
      ensures old(Shows(disk, Receipt, i, doc)) && plan.faults(old(clock)).Fails? && doc == ReceiptDoc(true, true) ==> slipped
    {
      var visible := CheckSameFile(doc, i);
      return if visible then WriteIndeterminate else WriteFailed(kind);
    }

    /** `os.path.samefile(temporary, path)`, and what the handler concludes from it. */
    method CheckSameFile(doc: Content, i: Inode) returns (visible: bool)
      requires Valid() && !slipped && doc.ReceiptDoc? && LinkKnown(doc, i)
      requires Shows(disk, Receipt, i, doc) ==> Secure(disk, ReceiptTmp, i, doc)
      requires NoReceipt(disk) || Shows(disk, Receipt, i, doc)
      requires Drafts(disk, i, doc)
      modifies this
      ensures Valid() && Onward() && Quiet(old(disk), disk, state)
      ensures visible ==> !slipped && Shows(disk, Receipt, i, doc)
      ensures slipped ==> !visible && doc == ReceiptDoc(true, true) && Shows(disk, Receipt, i, doc)
      ensures !visible && !slipped && doc == ReceiptDoc(true, true) ==> NoReceipt(disk)
      ensures old(Shows(disk, Receipt, i, doc)) && plan.faults(old(clock)).Fails? && doc == ReceiptDoc(true, true) ==> slipped
    {
      var check, same := Compare();
      visible := same && check.Fine?;
    }

    /** Others act, then the two names are compared. */
    method Compare() returns (check: Fault, same: bool)
      requires Valid() && !slipped
      modifies this
      ensures Valid() && Onward() && Quiet(old(disk), disk, state)
      ensures check == plan.faults(old(clock)) && slipped == SlipsNow(old(ops), plan.faults, SameFile)
      ensures same == (Receipt in disk.visible && Entry(disk.visible, ReceiptTmp) == Entry(disk.visible, Receipt))
    {
      Others();
      same := Receipt in disk.visible && Entry(disk.visible, ReceiptTmp) == Entry(disk.visible, Receipt);
      check := Tick(SameFile);
    }

    /** The same check by a handler whose staging file could not even be created: two names of somebody else's
        file are taken for a receipt of unknown durability. */
    method CheckForeignNames() returns (same: bool)
      requires Valid() && !slipped && NoReceipt(disk) && Unlinked()
      modifies this
      ensures Valid() && SameTrace() && NoReceipt(disk) && StateStays(old(disk), disk, state)
      ensures same <==> plan.faults(old(clock)).Fine? && TwoNames(disk)
    {
      var check;
      check, same := Compare();
      same := same && check.Fine?;
    }

    /** A complete, durable staging file. */
    method StageReceipt(doc: Content) returns (i: Inode, failure: Option<Kind>, created: bool)
      requires Valid() && !slipped && NoReceipt(disk) && doc.ReceiptDoc?
      modifies this
      ensures Valid() && SameTrace() && NoReceipt(disk) && StateStays(old(disk), disk, state)
      ensures failure.None? ==> created && Secure(disk, ReceiptTmp, i, doc) && i != state
      ensures if created then Drafts(disk, i, doc) else failure.Some?
      ensures Adds(old(missed), missed, failure.Some?)
      ensures Unlinked()
      ensures old(Calm(clock) && ReceiptTmp !in disk.visible && Receipt !in disk.visible) ==>
                failure.None? && Receipt !in disk.visible
      ensures failure.None? ==> clock == old(clock) + 4
    {
      i, failure := CreateReceipt(doc);
      created := failure.None?;
      if created {
        failure := CompleteReceipt(doc, i);
      }
    }

    /** Filling and securing the new staging file. */
    method CompleteReceipt(doc: Content, i: Inode) returns (failure: Option<Kind>)
      requires Valid() && !slipped && NoReceipt(disk) && Drafts(disk, i, doc) && doc.ReceiptDoc?
      modifies this
      ensures Valid() && SameTrace() && NoReceipt(disk) && StateStays(old(disk), disk, state)
      ensures Drafts(disk, i, doc) && (failure.None? ==> Secure(disk, ReceiptTmp, i, doc))
      ensures old(Calm(clock) && Receipt !in disk.visible) ==> failure.None? && Receipt !in disk.visible
      ensures Adds(old(missed), missed, failure.Some?)
      ensures Unlinked()
      ensures failure.None? ==> clock == old(clock) + 3
    {
      failure := FillReceipt(doc, i);
      if failure.None? {
        failure := SecureReceipt(doc, i);
      }
    }

    /** `_atomic_write_receipt`: the receipt is durable; or it is visible and both names are kept;
        or it cannot be read at all - unless the check for that was itself defeated, or an interrupt came on the
        way out. */
    method AtomicWriteReceipt(doc: Content) returns (r: WriteResult, i: Inode)
      requires Valid() && !slipped && NoReceipt(disk) && doc.ReceiptDoc?
      requires MayAttest(doc)
      modifies this
      ensures Valid() && Onward() && StateStays(old(disk), disk, state) && OnlySays(disk, doc)
      ensures Wrote(r, i, doc)
      ensures Adds(old(missed), missed, !r.Written?)
      ensures old(Calm(clock) && ReceiptTmp !in disk.visible && Receipt !in disk.visible) ==> r.Written?
      ensures r.Written? ==> clock >= old(clock) + 10
    {
      var f := Meddle(Guard);                              // parent directory, path boundary
      if f.Fine? {
        r, i := WriteStaged(doc);
      } else {
        r, i := WriteFailed(f.kind), next;
      }
    }

    /** The body of the writer. */
    method WriteStaged(doc: Content) returns (r: WriteResult, i: Inode)
      requires Valid() && !slipped && NoReceipt(disk) && doc.ReceiptDoc?
      requires MayAttest(doc)
      modifies this
      ensures Valid() && Onward() && StateStays(old(disk), disk, state) && OnlySays(disk, doc)
      ensures Wrote(r, i, doc)
      ensures Adds(old(missed), missed, !r.Written?)
      ensures old(Calm(clock) && ReceiptTmp !in disk.visible && Receipt !in disk.visible) ==> r.Written?
      ensures r.Written? ==> clock >= old(clock) + 9
    {
      var failure, created;
      i, failure, created := StageReceipt(doc);
      if created {
        r := PublishStaged(doc, i, failure);
      } else {
        var same := CheckForeignNames();
        r := if same then WriteIndeterminate else WriteFailed(failure.value);
      }
    }

    /** From the staging file, complete or not, to the way out. */
    method PublishStaged(doc: Content, i: Inode, failure: Option<Kind>) returns (r: WriteResult)
      requires Valid() && !slipped && NoReceipt(disk) && doc.ReceiptDoc? && Drafts(disk, i, doc)
      requires Unlinked()
      requires failure.None? ==> Secure(disk, ReceiptTmp, i, doc) && i != state
      requires MayAttest(doc)
      modifies this
      ensures Valid() && Onward() && StateStays(old(disk), disk, state) && OnlySays(disk, doc)
      ensures Wrote(r, i, doc)
      ensures missed >= old(missed) && (r.Written? ==> missed == old(missed) && failure.None?)
      ensures failure.None? && !r.Written? ==> missed > old(missed)
      ensures old(Calm(clock) && Receipt !in disk.visible) && failure.None? ==> r.Written?
      ensures r.Written? ==> clock >= old(clock) + 5
    {
      var kept := false;
      if failure.None? {
        r, kept := PublishReceipt(doc, i);
      } else {
        r := ResolveReceiptFailure(doc, i, failure.value);
        kept := r.WriteIndeterminate?;
      }
      r := LeaveWriter(doc, i, r, kept);
    }

    /** What the writer of a receipt promises. */
    ghost predicate Wrote(r: WriteResult, i: Inode, doc: Content)
      reads this
    {
      && (r.Written? ==> !slipped && Secure(disk, Receipt, i, doc))
      && (r.WriteIndeterminate? ==> !slipped && ((NoReceipt(disk) && TwoNames(disk)) || Preserves(i, doc)))
      && (r.WriteFailed? ==> NoReceipt(disk) || Shows(disk, Receipt, i, doc))
      && (slipped ==> r.WriteFailed? && doc == ReceiptDoc(true, true) && Shows(disk, Receipt, i, doc))
      && (r.WriteFailed? && !slipped && doc == ReceiptDoc(true, true) ==> NoReceipt(disk))
    }

    /** The receipt is visible, under a durable final or staging name. */
    ghost predicate Preserves(i: Inode, doc: Content)
      reads this
    {
      Shows(disk, Receipt, i, doc) && (Secure(disk, Receipt, i, doc) || Secure(disk, ReceiptTmp, i, doc))
    }

    /** Link, sync, sweep; or find out what went wrong. */
    method PublishReceipt(doc: Content, i: Inode) returns (r: WriteResult, kept: bool)
      requires Valid() && !slipped && NoReceipt(disk) && Secure(disk, ReceiptTmp, i, doc) && doc.ReceiptDoc? && i != state
      requires MayAttest(doc)
      modifies this
      ensures Valid() && Onward() && StateStays(old(disk), disk, state) && OnlySays(disk, doc)
      ensures Wrote(r, i, doc) && (r.WriteIndeterminate? ==> Preserves(i, doc) && (!kept ==> Secure(disk, Receipt, i, doc)))
      ensures Adds(old(missed), missed, !r.Written?)
      ensures old(Calm(clock) && Receipt !in disk.visible) ==> r.Written?
      ensures r.Written? ==> clock >= old(clock) + 4
    {
      var linked, failure := LinkReceipt(doc, i);
      if linked {
        r, kept := SettleAndSweep(doc, i);
      } else {
        r := ResolveReceiptFailure(doc, i, failure.value);
        kept := r.WriteIndeterminate?;
      }
    }

    /** What follows a successful link. */
    method SettleAndSweep(doc: Content, i: Inode) returns (r: WriteResult, kept: bool)
      requires Valid() && !slipped && Secure(disk, ReceiptTmp, i, doc) && Shows(disk, Receipt, i, doc) && OnlySays(disk, doc)
      modifies this
      ensures Valid() && SameTrace() && StateStays(old(disk), disk, state) && OnlySays(disk, doc)
      ensures !r.WriteFailed? && Shows(disk, Receipt, i, doc)
      ensures if r.WriteIndeterminate? && kept then Secure(disk, ReceiptTmp, i, doc) else Secure(disk, Receipt, i, doc)
      ensures Adds(old(missed), missed, !r.Written?)
      ensures old(Calm(clock)) ==> r.Written?
      ensures r.Written? ==> clock >= old(clock) + 3
    {
      var failure := SettleReceipt(doc, i);
      if failure.None? {
        r, kept := SweepReceipt(doc, i);
      } else {
        r, kept := WriteIndeterminate, true;
      }
    }

    /** The `finally` block: look for the staging name and remove it, unless it is to be kept.  An interrupt here
        takes the place of whatever the writer was about to report. */
    method LeaveWriter(doc: Content, i: Inode, due: WriteResult, kept: bool) returns (r: WriteResult)
      requires Valid() && Wrote(due, i, doc) && OnlySays(disk, doc) && doc.ReceiptDoc?
      requires due.WriteIndeterminate? ==> Preserves(i, doc) && (!kept ==> Secure(disk, Receipt, i, doc))
      modifies this
      ensures Valid() && Onward() && StateStays(old(disk), disk, state) && OnlySays(disk, doc)
      ensures Wrote(r, i, doc) && (old(slipped) ==> slipped)
      ensures (r == due && missed == old(missed)) || (r.WriteFailed? && missed > old(missed))
      ensures Interrupts(plan.faults(old(clock))) && doc == ReceiptDoc(true, true) && Shows(old(disk), Receipt, i, doc) ==> slipped
      ensures plan.faults(old(clock)).Fine? && plan.faults(old(clock) + 1).Fine? ==> r == due
      ensures clock > old(clock)
      ensures plan.faults(old(clock)).Fine? && plan.faults(old(clock) + 1).Fine? && !kept ==> ReceiptTmp !in disk.visible
    {
      var f;
      f, r := LookForStaging(doc, i, due, kept);
      if f.Fine? && ReceiptTmp in disk.visible && !kept {
        r := ClearStaging(doc, i, due);
      }
    }

    /** Is the staging name still there? */
    method LookForStaging(doc: Content, i: Inode, due: WriteResult, kept: bool) returns (f: Fault, r: WriteResult)
      requires Valid() && Wrote(due, i, doc) && OnlySays(disk, doc) && doc.ReceiptDoc?
      requires due.WriteIndeterminate? ==> Preserves(i, doc) && (!kept ==> Secure(disk, Receipt, i, doc))
      modifies this
      ensures Valid() && Onward() && StateStays(old(disk), disk, state) && OnlySays(disk, doc)
      ensures f == plan.faults(old(clock)) && clock == old(clock) + 1 && r == if Interrupts(f) then WriteFailed(Interrupt) else due
      ensures Wrote(r, i, doc) && (r.WriteIndeterminate? ==> Preserves(i, doc) && (!kept ==> Secure(disk, Receipt, i, doc)))
      ensures Adds(old(missed), missed, Interrupts(f))
      ensures slipped == (old(slipped) || (Interrupts(f) && doc == ReceiptDoc(true, true) && Shows(old(disk), Receipt, i, doc)))
    {
      f := Meddle(Leave(doc == ReceiptDoc(true, true) && Shows(disk, Receipt, i, doc)));
      r := if Interrupts(f) then WriteFailed(Interrupt) else due;
    }

    method ClearStaging(doc: Content, i: Inode, due: WriteResult) returns (r: WriteResult)
      requires Valid() && Wrote(due, i, doc) && OnlySays(disk, doc) && doc.ReceiptDoc?
      requires due.WriteIndeterminate? ==> Secure(disk, Receipt, i, doc)
      modifies this
      ensures Valid() && Onward() && StateStays(old(disk), disk, state) && OnlySays(disk, doc)
      ensures Wrote(r, i, doc) && (old(slipped) ==> slipped)
      ensures (r == due && missed == old(missed)) || (r.WriteFailed? && missed > old(missed))
      ensures plan.faults(old(clock)).Fine? ==> r == due
      ensures plan.faults(old(clock)).Fine? ==> ReceiptTmp !in disk.visible
    {
      var f := DropStaging(Sweep(doc == ReceiptDoc(true, true) && Shows(disk, Receipt, i, doc)));
      r := if Interrupts(f) then WriteFailed(Interrupt) else due;
    }

    /** One schedule that slips: the link takes effect but reports an error, and then the identity
        check fails as well. */
    method BlindLinkSlips(i: Inode) returns (r: WriteResult)
      requires Valid() && !slipped && NoReceipt(disk) && Secure(disk, ReceiptTmp, i, ReceiptDoc(true, true)) && i != state
      requires DestDurable(disk, state) && marks.reopened.Some? && Receipt !in disk.visible
      requires plan.faults(clock).Fails? && plan.faults(clock).effect && plan.foreign(clock) == {} && plan.faults(clock + 1).Fails?
      modifies this
      ensures Valid() && slipped && r.WriteFailed? && AttestsImport(disk, disk.visible)
    {
      var linked, failure := LinkReceipt(ReceiptDoc(true, true), i);
      r := ResolveReceiptFailure(ReceiptDoc(true, true), i, failure.value);
      r := LeaveWriter(ReceiptDoc(true, true), i, r, false);
    }

    // -------------------------------------------------------------- the state directory

    /** What an interrupt that escaped says about the state, and what the run will say. */
    ghost predicate StuckWhereItSays(says: bool)
      reads this
    {
      && stuckAt.Some? && stuckAt.value < |ops|
      && (AtDest(disk, state) <==> LeavesAtDest(ops[stuckAt.value])) && SaysPublished(ops[stuckAt.value]) == says
    }

    /** `_atomic_rename_noreplace`: an exclusive rename, which may move and still report an error. */
    method RenameNoReplace(from: Path, to: Path, ghost late: bool) returns (f: Fault, taken: bool, moved: bool)
      requires Valid() && (!slipped ==> NoReceipt(disk)) && stuckAt.None?
      requires from in {Dest, Candidate} && to in {Dest, Candidate} && from != to && (late ==> from.Dest?)
      requires to.Dest? ==> marks.verified.Some?
      requires Entry(disk.visible, from) == Some(state) && Entry(disk.visible, to) != Some(state)
      modifies this
      ensures Valid() && slipped == old(slipped) && dropped == old(dropped) && marks == old(marks) && ReceiptHolds(old(disk), disk)
      ensures f == plan.faults(old(clock)) && clock == old(clock) + 1
      ensures moved == (!taken && TakesEffect(f))
      ensures Entry(disk.visible, if moved then to else from) == Some(state)
      ensures Entry(disk.visible, if moved then from else to) != Some(state)
      ensures Absent(old(disk), state) && !moved ==> Absent(disk, state)
      ensures stuckAt.Some? <==> Interrupts(f)
      ensures stuckAt.Some? ==> StuckWhereItSays(late)
      ensures old(missed) <= missed && (from.Candidate? ==> Adds(old(missed), missed, !moved || f.Fails?))
      ensures old(to !in disk.visible) && plan.foreign(old(clock)) == {} ==>
                !taken && (forall n | n != from && n != to :: n in disk.visible <==> n in old(disk).visible)
      ensures moved ==> from !in disk.visible
    {
      f, taken, moved := AttemptRename(from, to, late);
      if moved {
        Move(from, to);
      }
    }

    /** The system call, before its effect on the names. */
    method AttemptRename(from: Path, to: Path, ghost late: bool) returns (f: Fault, taken: bool, moved: bool)
      requires Valid() && stuckAt.None?
      modifies this
      ensures Valid() && slipped == old(slipped) && dropped == old(dropped) && marks == old(marks) && Quiet(old(disk), disk, state)
      ensures f == plan.faults(old(clock)) && clock == old(clock) + 1
      ensures ops == old(ops) + [RenameOp(from, moved, late)]
      ensures stuckAt == if Interrupts(f) then Some(old(clock)) else None
      ensures Adds(old(missed), missed, !Passes(RenameOp(from, moved, late), f))
      ensures taken == (to in disk.visible) && moved == (!taken && TakesEffect(f))
      ensures plan.foreign(old(clock)) == {} ==> disk.visible == old(disk.visible)
    {
      Others();
      taken := to in disk.visible;
      moved := !taken && TakesEffect(plan.faults(clock));
      f := Step(RenameOp(from, moved, late));
    }

    method Move(from: Path, to: Path)
      requires Valid() && (!slipped ==> NoReceipt(disk))
      requires from in {Dest, Candidate} && to in {Dest, Candidate} && from != to
      requires Entry(disk.visible, from) == Some(state) && to !in disk.visible && (to.Dest? ==> marks.verified.Some?)
      modifies this`disk, this`past
      ensures Valid() && ReceiptHolds(old(disk), disk)
      ensures Entry(disk.visible, to) == Some(state) && from !in disk.visible
      ensures forall n | n != from && n != to :: n in disk.visible <==> n in old(disk).visible
    {
      RenameTouchesNoReceipt(disk, from, to, state, next);
      Become(Renamed(disk, from, to, state));
    }

    /** `_rollback_published_state`: durably back at the candidate name, or a declared uncertainty -
        or an interrupt that neither handler turns into one. */
    method RollbackPublishedState(ghost late: bool) returns (r: RollbackResult)
      requires Valid() && (!slipped ==> NoReceipt(disk)) && AtDest(disk, state) && !AtCandidate(disk, state) && stuckAt.None?
      modifies this
      ensures Valid() && slipped == old(slipped) && dropped == old(dropped) && ReceiptHolds(old(disk), disk)
      ensures r.RolledBack? ==> Absent(disk, state) && AtCandidate(disk, state)
      ensures AtDest(disk, state) != AtCandidate(disk, state) && clock >= old(clock) && old(missed) <= missed
      ensures r.RollbackInterrupted? <==> stuckAt.Some?
      ensures stuckAt.Some? ==> StuckWhereItSays(late)
      ensures old(Calm(clock) && Candidate !in disk.visible) ==> r.RolledBack?
      ensures old(Candidate in disk.visible) && plan.faults(old(clock)).Fine? ==> r.RollbackUnclear? && clock == old(clock) + 1
    {
      var f := Meddle(RollbackCheck(late));                // path-boundary check
      if f.Fine? && Candidate !in disk.visible {
        r := RenameBack(late);
      } else {
        r := if Interrupts(f) then RollbackInterrupted else RollbackUnclear;
      }
    }

    /** The reverse rename and what follows it. */
    method RenameBack(ghost late: bool) returns (r: RollbackResult)
      requires Valid() && (!slipped ==> NoReceipt(disk)) && AtDest(disk, state) && !AtCandidate(disk, state) && stuckAt.None?
      modifies this
      ensures Valid() && slipped == old(slipped) && dropped == old(dropped) && ReceiptHolds(old(disk), disk)
      ensures r.RolledBack? ==> Absent(disk, state) && AtCandidate(disk, state)
      ensures AtDest(disk, state) != AtCandidate(disk, state) && clock >= old(clock) && old(missed) <= missed
      ensures r.RollbackInterrupted? <==> stuckAt.Some?
      ensures stuckAt.Some? ==> StuckWhereItSays(late)
      ensures old(Calm(clock) && Candidate !in disk.visible) ==> r.RolledBack?
    {
      var f, taken, moved := RenameNoReplace(Dest, Candidate, late);
      if f.Fine? && !taken {
        r := SettleRollback(late);
      } else {
        r := if Interrupts(f) then RollbackInterrupted else RollbackUnclear;
      }
    }

    /** The directory sync of a visible rollback. */
    method SettleRollback(ghost late: bool) returns (r: RollbackResult)
      requires Valid() && AtCandidate(disk, state) && !AtDest(disk, state) && stuckAt.None?
      modifies this
      ensures Valid() && slipped == old(slipped) && dropped == old(dropped) && ReceiptHolds(old(disk), disk)
      ensures AtCandidate(disk, state) && !AtDest(disk, state) && clock >= old(clock) && old(missed) <= missed
      ensures r.RolledBack? ==> Absent(disk, state)
      ensures r.RollbackInterrupted? <==> stuckAt.Some?
      ensures stuckAt.Some? ==> StuckWhereItSays(late)
      ensures old(Calm(clock)) ==> r.RolledBack?
    {
      var f := Sync(DestDir(), RollbackSettle(late));
      if f.Fine? {
        assert Entry(disk.durable, Dest) == Entry(disk.visible, Dest);
        f := Meddle(RollbackSettle(late));                 // path-boundary check
      }
      r := if f.Fine? then RolledBack else if f.kind.Os? then RollbackUnclear else RollbackInterrupted;
    }

    /** What is left of `_publish_state` once the rename has happened and something else failed. */
    method Retreat(kind: Kind) returns (r: PublishResult)
      requires Valid() && !slipped && NoReceipt(disk) && AtDest(disk, state) && !AtCandidate(disk, state) && stuckAt.None?
      modifies this
      ensures Published(r) && !r.Moved? && dropped == old(dropped) && old(missed) <= missed && old(clock) <= clock
      ensures old(Calm(clock) && Candidate !in disk.visible) ==> r.PublishFailed?
    {
      var back := RollbackPublishedState(false);
      return match back
        case RolledBack => PublishFailed(kind)
        case RollbackUnclear => PublishUnclear
        case RollbackInterrupted => PublishInterrupted;
    }

    /** What `_publish_state` comes to: at the destination for good; not there at all; a declared uncertainty;
        or an interrupt that escaped, with the state where the interrupted operation left it. */
    ghost predicate Published(r: PublishResult)
      reads this
    {
      && Valid() && !slipped && NoReceipt(disk)
      && (r.Moved? ==> DestDurable(disk, state))
      && (r.PublishFailed? ==> Absent(disk, state))
      && AtDest(disk, state) != AtCandidate(disk, state)
      && (r.PublishInterrupted? <==> stuckAt.Some?)
      && (stuckAt.Some? ==> StuckWhereItSays(false))
    }

    /** `_publish_state`. */
    method PublishState() returns (r: PublishResult)
      requires Valid() && !slipped && NoReceipt(disk) && AtCandidate(disk, state) && Absent(disk, state) && stuckAt.None?
      requires marks.verified.Some?
      modifies this
      ensures Published(r) && dropped == old(dropped) && Adds(old(missed), missed, !r.Moved?)
      ensures old(clock) <= clock && (r.Moved? ==> marks == old(marks))
      ensures old(Calm(clock) && Dest !in disk.visible) ==> r.Moved? && SameNames(old(disk), disk)
      ensures old(plan.faults(clock).Fine? && Interrupts(plan.faults(clock + 1)) && plan.foreign(clock) == {} && plan.foreign(clock + 1) == {}
                  && Dest !in disk.visible) ==>
                && r.PublishInterrupted? && clock == old(clock) + 2 && (AtDest(disk, state) <==> plan.faults(old(clock) + 1).effect)
                && (AtDest(disk, state) ==> Candidate !in disk.visible)
                && SameNames(old(disk), disk)
      ensures r.Moved? ==> clock == old(clock) + 4
    {
      var f, free := ProbeNames({Dest});                   // boundary, absence, candidate.stat
      if f.Fine? && free {
        r := RenameState();
      } else {
        r := PublishFailed(if f.Fails? then f.kind else Os);
      }
    }

    /** The exclusive rename and what follows it. */
    method RenameState() returns (r: PublishResult)
      requires Valid() && !slipped && NoReceipt(disk) && AtCandidate(disk, state) && Absent(disk, state) && stuckAt.None?
      requires marks.verified.Some?
      modifies this
      ensures Published(r) && dropped == old(dropped) && Adds(old(missed), missed, !r.Moved?)
      ensures old(clock) <= clock && (r.Moved? ==> marks == old(marks))
      ensures old(Calm(clock) && Dest !in disk.visible) ==> r.Moved? && SameNames(old(disk), disk)
      ensures old(Interrupts(plan.faults(clock)) && plan.foreign(clock) == {} && Dest !in disk.visible) ==>
                && r.PublishInterrupted? && clock == old(clock) + 1 && (AtDest(disk, state) <==> plan.faults(old(clock)).effect)
                && (AtDest(disk, state) ==> Candidate !in disk.visible)
                && SameNames(old(disk), disk)
      ensures r.Moved? ==> clock == old(clock) + 3
    {
      var f, taken, moved := RenameNoReplace(Candidate, Dest, false);
      if Interrupts(f) {
        r := PublishInterrupted;
      } else {
        r := ConcludeRename(f.Fine?, taken, moved);
      }
    }

    /** After a rename that was not interrupted. */
    method ConcludeRename(fine: bool, taken: bool, moved: bool) returns (r: PublishResult)
      requires Valid() && !slipped && NoReceipt(disk) && stuckAt.None? && (taken ==> !moved) && (fine && !taken ==> moved)
      requires if moved then AtDest(disk, state) && !AtCandidate(disk, state) else AtCandidate(disk, state) && Absent(disk, state)
      modifies this
      ensures Published(r) && dropped == old(dropped) && missed >= old(missed)
      ensures (r.Moved? ==> missed == old(missed)) && (fine && !taken && !r.Moved? ==> missed > old(missed))
      ensures old(clock) <= clock && (taken || !fine ==> !r.Moved?) && (r.Moved? ==> marks == old(marks))
      ensures old(Calm(clock)) && fine && !taken ==> r.Moved? && disk.visible == old(disk.visible)
      ensures r.Moved? ==> clock == old(clock) + 2
    {
      if taken {
        r := PublishFailed(Os);
      } else if fine {
        r := SettleState();
      } else {
        r := JudgeRename(moved);
      }
    }

    /** The rename reported an error: find out by identity what it did. */
    method JudgeRename(moved: bool) returns (r: PublishResult)
      requires Valid() && !slipped && NoReceipt(disk) && stuckAt.None?
      requires if moved then AtDest(disk, state) && !AtCandidate(disk, state) else AtCandidate(disk, state) && Absent(disk, state)
      modifies this
      ensures Published(r) && !r.Moved? && dropped == old(dropped) && old(missed) <= missed && old(clock) <= clock
      ensures plan.faults(old(clock)).Fine? && plan.faults(old(clock) + 1).Fine? && !moved && old(Dest in disk.visible) ==> r.PublishUnclear?
      ensures old(Calm(clock) && (if moved then Candidate !in disk.visible else Dest !in disk.visible)) ==> r.PublishFailed?
    {
      var f := Meddle(PublishStat(moved));
      if Interrupts(f) {
        r := PublishInterrupted;
      } else {
        r := JudgeDestination(moved, if f.Fails? then None else Entry(disk.visible, Candidate));
      }
    }

    /** The second look, and the verdict. */
    method JudgeDestination(moved: bool, candidateId: Option<Inode>) returns (r: PublishResult)
      requires Valid() && !slipped && NoReceipt(disk) && stuckAt.None?
      requires if moved then AtDest(disk, state) && !AtCandidate(disk, state) else AtCandidate(disk, state) && Absent(disk, state)
      requires candidateId.Some? ==> candidateId == Entry(disk.visible, Candidate)
      modifies this
      ensures Published(r) && !r.Moved? && dropped == old(dropped) && old(missed) <= missed && old(clock) <= clock
      ensures plan.faults(old(clock)).Fine? && !moved && old(Dest in disk.visible) ==> r.PublishUnclear?
      ensures old(Calm(clock) && (if moved then Candidate !in disk.visible && candidateId == None else Dest !in disk.visible && candidateId == Some(state))) ==> r.PublishFailed?
    {
      var f := Meddle(PublishStat(moved));
      var destId := if f.Fails? then None else Entry(disk.visible, Dest);
      if Interrupts(f) {
        r := PublishInterrupted;
      } else if destId == Some(state) && candidateId == None {
        r := Retreat(Os);
      } else if destId.Some? || candidateId != Some(state) {
        r := PublishUnclear;
      } else {
        r := PublishFailed(Os);
      }
    }

    /** The directory sync behind a successful rename. */
    method SettleState() returns (r: PublishResult)
      requires Valid() && !slipped && NoReceipt(disk) && AtDest(disk, state) && !AtCandidate(disk, state) && stuckAt.None?
      modifies this
      ensures Published(r) && dropped == old(dropped) && Adds(old(missed), missed, !r.Moved?)
      ensures old(clock) <= clock && (r.Moved? ==> marks == old(marks))
      ensures old(Calm(clock)) ==> r.Moved? && disk.visible == old(disk.visible)
      ensures r.Moved? ==> clock == old(clock) + 2
    {
      var f := Sync(DestDir(), Settle);
      if f.Fine? {
        assert Entry(disk.durable, Dest) == Entry(disk.visible, Dest);
        r := GuardState();
      } else {
        r := Retreat(f.kind);
      }
    }

    /** The path-boundary check of the durable destination. */
    method GuardState() returns (r: PublishResult)
      requires Valid() && !slipped && NoReceipt(disk) && DestDurable(disk, state) && !AtCandidate(disk, state) && stuckAt.None?
      modifies this
      ensures Published(r) && dropped == old(dropped) && Adds(old(missed), missed, !r.Moved?)
      ensures old(clock) <= clock && (r.Moved? ==> marks == old(marks))
      ensures old(Calm(clock)) ==> r.Moved? && disk.visible == old(disk.visible)
      ensures r.Moved? ==> clock == old(clock) + 1
    {
      var f := Meddle(Guard);
      if f.Fine? {
        r := Moved;
      } else {
        r := Retreat(f.kind);
      }
    }

    // -------------------------------------------------------------- the whole run

    /** `_safe_remove_candidate`: whatever is at the candidate name goes. */
    method RemoveCandidate() returns (f: Fault)
      requires Valid() && (!slipped ==> NoReceipt(disk)) && dropped.None?
      modifies this
      ensures Valid() && slipped == old(slipped) && stuckAt == old(stuckAt) && old(ops) <= ops && ReceiptHolds(old(disk), disk)
      ensures (AtDest(disk, state) <==> AtDest(old(disk), state)) && old(missed) <= missed
      ensures Absent(old(disk), state) ==> Absent(disk, state)
      ensures f == plan.faults(old(clock)) && clock == old(clock) + 1
      ensures dropped.Some? <==> TakesEffect(f)
      ensures TakesEffect(f) ==> Candidate !in disk.visible
      ensures plan.foreign(old(clock)) == {} ==> forall n | n != Candidate :: n in disk.visible <==> n in old(disk).visible
      ensures AtCandidate(disk, state) ==> AtCandidate(old(disk), state)
    {
      f := Meddle(Plain);
      if TakesEffect(f) {
        DropCandidate();
      }
    }

    method DropCandidate()
      requires Valid() && (!slipped ==> NoReceipt(disk)) && dropped.None?
      modifies this`disk, this`past, this`dropped
      ensures Valid() && dropped.Some? && disk == Dropped(old(disk)) && ReceiptHolds(old(disk), disk)
      ensures (AtDest(disk, state) <==> AtDest(old(disk), state)) && (Absent(old(disk), state) ==> Absent(disk, state))
    {
      ghost var d := Dropped(disk);
      DroppingTouchesNoReceipt(disk, state, next);
      KeptWeakens(past, state, false);
      KeptGrows(past, state, true, d);
      assert (past + [d])[..|past|] == past;
      dropped := Some(|past|);
      disk := Dropped(disk);
      past := past + [d];
    }

    /** The failure handler of `migrate_legacy_state` with a candidate to clean up: remove it, then leave a failure
        receipt if the receipt name is still free.  An interrupt of its look for the candidate leaves it at once. */
    method FailAndClean(published: bool)
      requires Valid() && (if slipped then AttestsImport(disk, disk.visible) else NoReceipt(disk)) && dropped.None?
      modifies this
      ensures Handled(old(disk), published) && handled == Some(true)
      ensures slipped == old(slipped) && stuckAt == old(stuckAt) && old(ops) <= ops && old(missed) <= missed
      ensures old(Candidate in disk.visible) ==> (dropped.Some? <==> Removes(old(clock)))
      ensures old(Calm(clock)) ==> !AtCandidate(disk, state)
      ensures !slipped && old(Calm(clock) && ReceiptTmp !in disk.visible && Receipt !in disk.visible) ==>
                exists i :: Secure(disk, Receipt, i, ReceiptDoc(false, published))
    {
      var gone := CleanUp();
      Conclude(gone, published);
    }

    method Conclude(gone: bool, published: bool)
      requires Valid() && (if slipped then AttestsImport(disk, disk.visible) else NoReceipt(disk))
      modifies this
      ensures Valid() && SameTrace() && StateStays(old(disk), disk, state) && ImportStays(old(disk), disk) && handled == Some(true)
      ensures if slipped then AttestsImport(disk, disk.visible) else OnlySays(disk, ReceiptDoc(false, published))
      ensures !slipped && !gone && old(Calm(clock) && ReceiptTmp !in disk.visible && Receipt !in disk.visible) ==>
                exists i :: Secure(disk, Receipt, i, ReceiptDoc(false, published))
    {
      if !gone {
        LeaveReceipt(published);
      }
      handled := Some(true);
    }

    /** ... and without one. */
    method FailPlainly(published: bool)
      requires Valid() && (if slipped then AttestsImport(disk, disk.visible) else NoReceipt(disk)) && dropped.None?
      modifies this
      ensures Handled(old(disk), published) && handled == Some(false) && dropped.None?
      ensures slipped == old(slipped) && stuckAt == old(stuckAt) && old(ops) <= ops && old(missed) <= missed
      ensures !slipped && old(Calm(clock) && ReceiptTmp !in disk.visible && Receipt !in disk.visible) ==>
                exists i :: Secure(disk, Receipt, i, ReceiptDoc(false, published))
    {
      LeaveReceipt(published);
      handled := Some(false);
    }

    /** What the handler leaves: the state where it was or removed as a candidate, and a receipt that says so. */
    ghost predicate Handled(before: Tree, published: bool)
      reads this
    {
      && Valid() && ImportStays(before, disk) && (AtDest(disk, state) <==> AtDest(before, state))
      && (Absent(before, state) ==> Absent(disk, state)) && (AtCandidate(disk, state) ==> AtCandidate(before, state))
      && (if slipped then AttestsImport(disk, disk.visible) else OnlySays(disk, ReceiptDoc(false, published)))
    }

    /** The failure receipt, if its name is still free. */
    method LeaveReceipt(published: bool)
      requires Valid() && (if slipped then AttestsImport(disk, disk.visible) else NoReceipt(disk))
      modifies this
      ensures Valid() && SameTrace() && StateStays(old(disk), disk, state) && ImportStays(old(disk), disk)
      ensures if slipped then AttestsImport(disk, disk.visible) else OnlySays(disk, ReceiptDoc(false, published))
      ensures !slipped && old(Calm(clock) && ReceiptTmp !in disk.visible && Receipt !in disk.visible) ==>
                exists i :: Secure(disk, Receipt, i, ReceiptDoc(false, published))
    {
      if Receipt !in disk.visible {
        var w, i := AtomicWriteReceipt(ReceiptDoc(false, published));
      }
    }

    /** Looking for the candidate at tick `k` and then removing it come off. */
    ghost predicate Removes(k: nat) {
      plan.faults(k).Fine? && TakesEffect(plan.faults(k + 1))
    }

    /** Look for a candidate and remove it; `interrupted` if the look is. */
    method CleanUp() returns (interrupted: bool)
      requires Valid() && (if slipped then AttestsImport(disk, disk.visible) else NoReceipt(disk)) && dropped.None?
      modifies this
      ensures Valid() && slipped == old(slipped) && stuckAt == old(stuckAt) && old(ops) <= ops && ReceiptHolds(old(disk), disk)
      ensures (AtDest(disk, state) <==> AtDest(old(disk), state)) && old(missed) <= missed
      ensures Absent(old(disk), state) ==> Absent(disk, state)
      ensures clock > old(clock) && interrupted == Interrupts(plan.faults(old(clock)))
      ensures old(Candidate in disk.visible) ==> (dropped.Some? <==> Removes(old(clock)))
      ensures old(Calm(clock)) ==> Candidate !in disk.visible && forall n | n != Candidate :: n in disk.visible <==> n in old(disk).visible
      ensures old(Candidate !in disk.visible) && plan.foreign(old(clock)) == {} ==> dropped.None?
      ensures AtCandidate(disk, state) ==> AtCandidate(old(disk), state)
    {
      var f := Meddle(Plain);                              // is there a candidate?
      interrupted := Interrupts(f);
      if f.Fine? && Candidate in disk.visible {
        f := RemoveCandidate();
      }
    }

    /** An interrupt in the publishing rename: the run goes straight to its failure handler, and whatever the
        rename did, the durable receipt says that nothing was published.  That is a lie exactly when the
        rename took effect. */
    method InterruptedPublish()
      requires Valid() && !slipped && NoReceipt(disk) && AtCandidate(disk, state) && Absent(disk, state) && stuckAt.None? && dropped.None?
      requires Dest !in disk.visible && Receipt !in disk.visible && ReceiptTmp !in disk.visible && marks.verified.Some?
      requires plan.faults(clock).Fine? && Interrupts(plan.faults(clock + 1)) && plan.foreign(clock) == {} && plan.foreign(clock + 1) == {}
      requires Calm(clock + 2)
      modifies this
      ensures Valid() && exists i :: Secure(disk, Receipt, i, ReceiptDoc(false, false))
      ensures AtDest(disk, state) <==> plan.faults(old(clock) + 1).effect
      ensures Truthful(disk, state) <==> !plan.faults(old(clock) + 1).effect
    {
      var p := PublishState();
      FailAndClean(false);
    }

    /** Publication has happened but a later check failed: take the state back, if possible. */
    method Withdraw() returns (r: Report)
      requires Valid() && AtDest(disk, state) && !AtCandidate(disk, state) && stuckAt.None? && dropped.None?
      requires if slipped then AttestsImport(disk, disk.visible) else NoReceipt(disk)
      modifies this
      ensures Valid() && slipped == old(slipped) && Verdict(r) && !r.Imported? && ImportStays(old(disk), disk) && old(missed) <= missed
      ensures old(Calm(clock) && Candidate !in disk.visible) ==> r == Failed(false, false) && !Held(disk, state)
    {
      var back := RollbackPublishedState(true);
      match back {
        case RolledBack =>
          FailAndClean(false);
          r := Failed(false, false);
        case RollbackUnclear =>
          r := Unclear;
        case RollbackInterrupted =>
          FailPlainly(true);
          r := Failed(true, true);
      }
    }

    /** What the report of a run promises about the directory tree it leaves. */
    ghost predicate Verdict(r: Report)
      reads this
    {
      match r
      case Imported =>
        && !slipped && stuckAt.None? && DestDurable(disk, state)
        && exists i :: Secure(disk, Receipt, i, ReceiptDoc(true, true))
      case Unclear =>
        && stuckAt.None? && dropped.None? && Held(disk, state)
        && (!slipped ==> NoReceipt(disk) || KeepsBoth())
      case Failed(says, stuck) =>
        && handled.Some? && (AtCandidate(disk, state) && !stuck ==> handled.value)
        && (if slipped then AttestsImport(disk, disk.visible) else OnlySays(disk, ReceiptDoc(false, says)))
        && (stuck <==> stuckAt.Some?)
        && (if stuck then StuckWhereItSays(says) else !says && Absent(disk, state))
    }

    /** The success receipt is visible, under a durable final or staging name, beside its durable destination. */
    ghost predicate KeepsBoth()
      reads this
    {
      DestDurable(disk, state) && exists i :: Preserves(i, ReceiptDoc(true, true))
    }

    /** Building the verified candidate beside the destination. */
    method BuildCandidate() returns (failure: Option<Kind>)
      requires Valid() && !slipped && NoReceipt(disk) && Absent(disk, state) && !AtCandidate(disk, state)
      modifies this
      ensures Valid() && SameTrace() && NoReceipt(disk) && Absent(disk, state)
      ensures failure.None? ==> AtCandidate(disk, state)
      ensures old(Candidate in disk.visible) ==> failure.Some? && Candidate in disk.visible
      ensures clock == old(clock) + 1 && Adds(old(missed), missed, failure.Some?)
      ensures old(Calm(clock) && Candidate !in disk.visible) ==>
                failure.None? && forall n | n != Candidate :: n in disk.visible <==> n in old(disk).visible
      ensures !TakesEffect(plan.faults(old(clock))) ==> !AtCandidate(disk, state)
    {
      var f, free := ProbeNames({Candidate});
      if free && TakesEffect(f) {
        BuildingIsHarmless(disk, state, next);
        Become(Built(disk, state));
      }
      failure := if f.Fails? then Some(f.kind) else if free then None else Some(Os);
    }

    /** Nothing of this run is there yet. */
    ghost predicate Fresh()
      reads this
    {
      && Valid() && !slipped && NoReceipt(disk) && Absent(disk, state) && !AtCandidate(disk, state)
      && state !in disk.files && stuckAt.None? && dropped.None? && handled.None? && missed == 0
    }

    /** `migrate_legacy_state` for a real import, under every schedule of faults. */
    method MigrateLegacyState() returns (r: Report)
      requires Fresh()
      modifies this
      ensures Valid() && Verdict(r)
      // a run imports exactly when every operation it performed came off, among them the verification of the
      // candidate, without which it is not moved, and that of the destination, without which no receipt appears
      ensures r.Imported? <==> forall k | 0 <= k < |ops| :: Passes(ops[k], plan.faults(k))
      ensures r.Imported? ==> exists j, k :: 0 <= j < |ops| && 0 <= k < |ops| && ops[j] == Verify && ops[k] == Reopen
      // ... and so it does if nothing fails and nobody is in the way
      ensures old(Calm(clock) && AllFree(disk)) ==> r.Imported?
      // an ordinary error is reported truthfully exactly when the run did not lose sight of its success receipt
      ensures r.Failed? && !r.stuck ==> (Truthful(disk, state) <==> !slipped)
      // it does exactly when a link of the success receipt took effect with an error and its check failed, or an
      // interrupt came behind the visible success receipt
      ensures slipped <==> exists k: nat :: SlipsAt(ops, plan.faults, k)
      // a run is stuck exactly when an interrupt hit an operation that moves the state or asks where it is
      ensures r.Failed? && r.stuck <==> exists k: nat :: SticksAt(ops, plan.faults, k)
      // a stuck run is truthful exactly when that operation left the state where its receipt says
      ensures r.Failed? && r.stuck ==>
                var op := ops[stuckAt.value];
                Truthful(disk, state) <==>
                  if slipped then LeavesAtDest(op) else Attests(disk, disk.visible) ==> SaysPublished(op) == LeavesAtDest(op)
    {
      r := RunImport();
      MissedMeans(ops, plan.faults);
      assert r.Imported? ==> ops[marks.verified.value] == Verify && ops[marks.reopened.value] == Reopen;
      SlippedMeans(ops, plan.faults);
      StuckMeans(ops, plan.faults);
    }

    /** The body of the run. */
    method RunImport() returns (r: Report)
      requires Fresh()
      modifies this
      ensures Valid() && Verdict(r) && (r.Imported? <==> missed == 0)
      ensures old(Calm(clock) && AllFree(disk)) ==> r.Imported?
      ensures old(Candidate in disk.visible) ==> r == Failed(false, false) && (dropped.Some? <==> old(RemovesFound()))
      ensures r.Imported? ==> marks.verified.Some? && marks.reopened.Some?
      ensures r.Imported? ==> clock >= old(clock) + 19
    {
      var ok := CheckNames();
      if ok {
        r := BuildAndPublish();
      } else {
        FailPlainly(false);
        r := Failed(false, false);
      }
    }

    /** Source and paths are in order, and neither destination nor receipt is there. */
    method CheckNames() returns (ok: bool)
      requires Fresh()
      modifies this
      ensures Valid() && SameTrace() && NoReceipt(disk) && Absent(disk, state) && !AtCandidate(disk, state)
      ensures old(Candidate in disk.visible) ==> Candidate in disk.visible
      ensures clock == old(clock) + 1 && ok == old(NamesAreFree()) && (missed == 0 <==> ok)
      ensures old(Calm(clock)) ==> disk.visible == old(disk.visible)
    {
      var f, free := ProbeNames({Dest, Receipt});
      ok := f.Fine? && free;
    }

    ghost predicate NamesAreFree()
      reads this
    {
      && plan.faults(clock).Fine?
      && Dest !in disk.visible.Keys + plan.foreign(clock) && Receipt !in disk.visible.Keys + plan.foreign(clock)
    }

    method BuildAndPublish() returns (r: Report)
      requires Valid() && !slipped && NoReceipt(disk) && Absent(disk, state) && !AtCandidate(disk, state) && stuckAt.None? && dropped.None?
      modifies this
      ensures Valid() && Verdict(r) && Adds(old(missed), missed, !r.Imported?)
      ensures old(Calm(clock) && AllFree(disk)) ==> r.Imported?
      ensures old(Candidate in disk.visible) ==> r == Failed(false, false) && (dropped.Some? <==> Removes(old(clock) + 1))
      ensures r.Imported? ==> marks.verified.Some? && marks.reopened.Some?
      ensures r.Imported? ==> clock >= old(clock) + 18
    {
      var failure := BuildCandidate();
      if failure.None? {
        r := VerifyAndPublish();
      } else {
        FailAndClean(false);
        r := Failed(false, false);
      }
    }

    /** The integrity checks of the candidate, and the receipt embedded in it. */
    method VerifyCandidate() returns (f: Fault)
      requires Valid()
      modifies this
      ensures Valid() && Quiet(old(disk), disk, state) && slipped == old(slipped) && stuckAt == old(stuckAt) && dropped == old(dropped)
      ensures f == plan.faults(old(clock)) && clock == old(clock) + 1 && Adds(old(missed), missed, f.Fails?)
      ensures f.Fine? ==> marks.verified.Some?
      ensures plan.foreign(old(clock)) == {} ==> disk.visible == old(disk.visible)
    {
      f := Meddle(Verify);
      if f.Fine? {
        marks := marks.(verified := Some(clock - 1));
      }
    }

    /** Only a candidate that verifies is published. */
    method VerifyAndPublish() returns (r: Report)
      requires Valid() && !slipped && NoReceipt(disk) && AtCandidate(disk, state) && Absent(disk, state) && stuckAt.None? && dropped.None?
      modifies this
      ensures Valid() && Verdict(r) && Adds(old(missed), missed, !r.Imported?)
      ensures old(Calm(clock) && Dest !in disk.visible && Receipt !in disk.visible && ReceiptTmp !in disk.visible) ==> r.Imported?
      ensures r.Imported? ==> marks.verified.Some? && marks.reopened.Some?
      ensures r.Imported? ==> clock >= old(clock) + 17
    {
      var f := VerifyCandidate();
      if f.Fine? {
        r := PublishAndAttest();
      } else {
        FailAndClean(false);
        r := Failed(false, false);
      }
    }

    /** The first check finds the other names absent, and the failure handler's removal comes off. */
    ghost predicate RemovesFound()
      reads this
    {
      NamesAreFree() && Removes(clock + 2)
    }

    /** A candidate left by another run of the same operation is an error; it is still there at the end, unless
        the handler of that error removed it. */
    method FoundCandidateIsRemoved() returns (r: Report)
      requires Fresh() && Candidate in disk.visible && disk == origin
      modifies this
      ensures Valid() && r == Failed(false, false)
      ensures old(RemovesFound()) ==> exists k :: 0 <= k < |past| && Candidate !in past[k].visible
      ensures !old(RemovesFound()) ==> Entry(disk.visible, Candidate) == Entry(origin.visible, Candidate)
    {
      r := RunImport();
      if dropped.None? {
        KeptMeans(past, state, false, 0, |past| - 1);
      }
    }

    /** From the verified candidate to the end of the run. */
    method PublishAndAttest() returns (r: Report)
      requires marks.verified.Some? && Valid() && !slipped && NoReceipt(disk) && AtCandidate(disk, state) && Absent(disk, state) && stuckAt.None? && dropped.None?
      modifies this
      ensures Valid() && Verdict(r) && Adds(old(missed), missed, !r.Imported?)
      ensures old(Calm(clock) && Dest !in disk.visible && Receipt !in disk.visible && ReceiptTmp !in disk.visible) ==> r.Imported?
      ensures r.Imported? ==> marks.verified.Some? && marks.reopened.Some?
      ensures r.Imported? ==> clock >= old(clock) + 16
    {
      var p := PublishState();
      match p {
        case Moved =>
          r := AttestImport();
        case PublishFailed(_) =>
          FailAndClean(false);
          r := Failed(false, false);
        case PublishUnclear =>
          r := Unclear;
        case PublishInterrupted =>
          FailAndClean(false);
          r := Failed(false, true);
      }
    }

    /** The published destination is opened and verified again. */
    method ReopenDestination() returns (f: Fault)
      requires Valid()
      modifies this
      ensures Valid() && Quiet(old(disk), disk, state) && slipped == old(slipped) && stuckAt == old(stuckAt) && dropped == old(dropped)
      ensures f == plan.faults(old(clock)) && clock == old(clock) + 1 && Adds(old(missed), missed, f.Fails?)
      ensures marks.verified == old(marks.verified) && (f.Fine? ==> marks.reopened.Some?)
      ensures plan.foreign(old(clock)) == {} ==> disk.visible == old(disk.visible)
    {
      f := Meddle(Reopen);
      if f.Fine? {
        marks := marks.(reopened := Some(clock - 1));
      }
    }

    /** From the durable destination to the durable external receipt. */
    method AttestImport() returns (r: Report)
      requires Valid() && !slipped && NoReceipt(disk) && DestDurable(disk, state) && !AtCandidate(disk, state)
      requires stuckAt.None? && dropped.None?
      modifies this
      ensures Valid() && Verdict(r) && Adds(old(missed), missed, !r.Imported?)
      ensures old(Calm(clock) && Receipt !in disk.visible && ReceiptTmp !in disk.visible) ==> r.Imported?
      ensures r.Imported? ==> marks.verified == old(marks.verified) && marks.reopened.Some?
      ensures r.Imported? ==> clock >= old(clock) + 12
    {
      var f := ReopenDestination();
      if f.Fine? {
        r := WriteAndConfirm();
      } else {
        r := Withdraw();
      }
    }

    /** The success receipt, and the check behind it. */
    method WriteAndConfirm() returns (r: Report)
      requires marks.reopened.Some? && Valid() && !slipped && NoReceipt(disk) && DestDurable(disk, state) && !AtCandidate(disk, state)
      requires stuckAt.None? && dropped.None?
      modifies this
      ensures Valid() && Verdict(r) && Adds(old(missed), missed, !r.Imported?)
      ensures old(Calm(clock) && Receipt !in disk.visible && ReceiptTmp !in disk.visible) ==> r.Imported?
      ensures r.Imported? ==> marks == old(marks)
      ensures r.Imported? ==> clock >= old(clock) + 11
    {
      var w, i := AtomicWriteReceipt(ReceiptDoc(true, true));
      if w.Written? {
        r := ConfirmImport(i);
      } else if w.WriteFailed? {
        r := Withdraw();
      } else {
        r := Unclear;
      }
    }

    /** The path check behind the durable success receipt.  Only a failed check is declared an uncertainty; an
        interrupt takes the state back. */
    method ConfirmImport(ghost i: Inode) returns (r: Report)
      requires Valid() && !slipped && DestDurable(disk, state) && !AtCandidate(disk, state)
      requires Secure(disk, Receipt, i, ReceiptDoc(true, true)) && stuckAt.None? && dropped.None?
      modifies this
      ensures Valid() && Verdict(r) && Adds(old(missed), missed, !r.Imported?)
      ensures (r.Imported? <==> plan.faults(old(clock)).Fine?) && (r.Imported? ==> marks == old(marks))
      ensures old(Interrupts(plan.faults(clock)) && plan.foreign(clock) == {} && Calm(clock + 1) && Candidate !in disk.visible) ==>
                && r == Failed(false, false) && slipped && !Held(disk, state)
                && AttestsImport(disk, disk.visible) && AttestsImport(disk, disk.durable)
      ensures r.Imported? ==> clock == old(clock) + 1
    {
      var f := Meddle(LastCheck);
      assert Preserves(i, ReceiptDoc(true, true));
      if Interrupts(f) {
        r := Withdraw();
      } else {
        r := if f.Fine? then Imported else Unclear;
      }
    }

    /** The other schedule that slips: one interrupt of the last path check leaves a durable success receipt and
        no state at all. */
    method InterruptedCheckRevokes(i: Inode) returns (r: Report)
      requires Valid() && !slipped && DestDurable(disk, state) && Candidate !in disk.visible
      requires Secure(disk, Receipt, i, ReceiptDoc(true, true)) && stuckAt.None? && dropped.None?
      requires Interrupts(plan.faults(clock)) && plan.foreign(clock) == {} && Calm(clock + 1)
      modifies this
      ensures Valid() && r == Failed(false, false) && slipped
      ensures AttestsImport(disk, disk.visible) && AttestsImport(disk, disk.durable) && !Held(disk, state) && Absent(disk, state)
    {
      r := ConfirmImport(i);
    }
  }

  /** Power may be lost at any moment of a run: a success receipt that survives comes with the
      destination it attests, unless the run lost sight of it. */
  lemma SurvivingReceiptHasItsState(m: Importer, k: nat, picked: set<Path>, torn: map<Inode, Content>)
    requires m.Valid() && k < |m.past| && forall j: nat :: !SlipsAt(m.ops, m.plan.faults, j)
    ensures var c := Crash(m.past[k], picked, torn); AttestsImport(c, c.visible) ==> AtDest(c, m.state)
  {
    SlippedMeans(m.ops, m.plan.faults);
    AllHonestMeans(m.past, m.state, k);
    HonestSurvivesCrash(m.past[k], m.state, picked, torn);
  }

  /** An indeterminate run has removed nothing: from any earlier moment on, the state stayed at one of its two
      names, and a receipt name, once there, stayed on the same inode. */
  lemma UnclearRunRemovesNothing(m: Importer, j: nat, k: nat)
    requires m.Valid() && m.Verdict(Unclear) && j <= k < |m.past|
    ensures Held(m.past[j], m.state) ==> Held(m.past[k], m.state)
    ensures ReceiptKept(m.past[j], m.past[k])
  {
    KeptMeans(m.past, m.state, m.dropped.Some?, j, k);
  }

  /** Without an interrupt in the schedule no run is ever stuck, and only the double fault makes one slip. */
  lemma NoInterruptNeverSticks(m: Importer)
    requires m.Valid() && forall k :: !Interrupts(m.plan.faults(k))
    ensures m.stuckAt.None? && (m.slipped <==> exists k: nat :: BlindAt(m.ops, m.plan.faults, k))
  {
    StuckMeans(m.ops, m.plan.faults);
    SlippedMeans(m.ops, m.plan.faults);
    if k: nat :| BlindAt(m.ops, m.plan.faults, k) {
      assert SlipsAt(m.ops, m.plan.faults, k);
    }
  }
}
