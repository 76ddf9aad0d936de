/**
 The kernel's table of processes and process groups.

 A number names a process only until the process is reaped; then it may be handed out again.  The
 model therefore gives every process a birth number that is never reused, and names a group by the
 birth of its founder.  No program can read either.
 */
module Processes {
  import opened FileSystem

  type Pid = nat

  /** `ours` marks a child of the launching program: nobody else can reap it. */
  datatype Proc = Proc(birth: nat, pgid: Pid, group: nat, ticks: nat, zombie: bool, ours: bool)

  /** `stamps` remembers who started under a number at a clock tick; the kernel never repeats a pair. */
  datatype Kernel = Kernel(table: map<Pid, Proc>, births: nat, stamps: map<(Pid, nat), nat>)

  datatype Identity = Identity(pid: Pid, ticks: nat, birth: nat)

  datatype Event =
    | Fork(parent: Pid, pid: Pid, ticks: nat)
    | Regroup(pid: Pid)          // the process founds a group of its own
    | Join(pid: Pid, to: Pid)    // ... or joins the group of another process
    | Exit(pid: Pid)
    | Reap(pid: Pid)             // by a parent other than the launcher

  predicate GroupExists(k: Kernel, pgid: Pid) {
    exists q :: q in k.table && k.table[q].pgid == pgid
  }

  /** The kernel allocates no number that is in use as a process or as a group. */
  predicate Free(k: Kernel, pid: Pid, ticks: nat) {
    pid > 0 && pid !in k.table && !GroupExists(k, pid) && (pid, ticks) !in k.stamps
  }

  predicate Possible(k: Kernel, e: Event) {
    match e
    case Fork(parent, pid, ticks) => parent in k.table && !k.table[parent].zombie && Free(k, pid, ticks)
    case Regroup(pid) => pid in k.table && !k.table[pid].zombie && k.table[pid].pgid != pid && !GroupExists(k, pid)
    case Join(pid, to) =>
      && pid in k.table && !k.table[pid].zombie && k.table[pid].pgid != pid
      && to in k.table && k.table[to].pgid != pid
    case Exit(pid) => pid in k.table
    case Reap(pid) => pid in k.table && k.table[pid].zombie && !k.table[pid].ours
  }

  function Born(k: Kernel, pid: Pid, ticks: nat, p: Proc): Kernel {
    Kernel(k.table[pid := p], k.births + 1, k.stamps[(pid, ticks) := k.births])
  }

  function Happen(k: Kernel, e: Event): Kernel
    requires Possible(k, e)
  {
    match e
    case Fork(parent, pid, ticks) =>
      Born(k, pid, ticks, Proc(k.births, k.table[parent].pgid, k.table[parent].group, ticks, false, false))
    case Regroup(pid) => k.(table := k.table[pid := k.table[pid].(pgid := pid, group := k.table[pid].birth)])
    case Join(pid, to) => k.(table := k.table[pid := k.table[pid].(pgid := k.table[to].pgid, group := k.table[to].group)])
    case Exit(pid) => k.(table := k.table[pid := k.table[pid].(zombie := true)])
    case Reap(pid) => k.(table := k.table - {pid})
  }

  /** `Popen(..., start_new_session=True)`. */
  function Spawn(k: Kernel, pid: Pid, ticks: nat): Kernel {
    Born(k, pid, ticks, Proc(k.births, pid, k.births, ticks, false, true))
  }

  // ---------------------------------------------------------------- what numbers can be trusted for

  ghost predicate Stamped(k: Kernel) {
    && (forall p <- k.table :: k.table[p].birth < k.births && k.table[p].group < k.births)
    && (forall p <- k.table :: (p, k.table[p].ticks) in k.stamps && k.stamps[(p, k.table[p].ticks)] == k.table[p].birth)
  }

  /** Processes with one group number are in one group, and no group is called after a process that
      has not founded it. */
  ghost predicate Grouped(k: Kernel) {
    && (forall p, q :: p in k.table && q in k.table && k.table[p].pgid == k.table[q].pgid ==> k.table[p].group == k.table[q].group)
    && (forall p, q :: p in k.table && q in k.table && k.table[p].pgid != p ==> k.table[q].group != k.table[p].birth)
  }

  ghost predicate Distinct(k: Kernel) {
    forall p, q :: p in k.table && q in k.table && p != q ==> k.table[p].birth != k.table[q].birth
  }

  ghost predicate Sane(k: Kernel) {
    Stamped(k) && Distinct(k) && Grouped(k)
  }

  /** `id` once started, under this number at this time, as the founder of its group. */
  ghost predicate Founder(k: Kernel, id: Identity) {
    && id.birth < k.births
    && (id.pid, id.ticks) in k.stamps && k.stamps[(id.pid, id.ticks)] == id.birth
    && (forall q <- k.table :: k.table[q].group == id.birth ==> k.table[q].pgid == id.pid)
    && (forall q <- k.table :: k.table[q].birth == id.birth ==>
          q == id.pid && k.table[q].group == id.birth && k.table[q].ticks == id.ticks)
  }

  /** It is still in the table, running or not yet reaped. */
  predicate Runs(k: Kernel, id: Identity) {
    id.pid in k.table && k.table[id.pid].birth == id.birth
  }

  /** This program spawned it. */
  ghost predicate Known(k: Kernel, id: Identity) {
    Founder(k, id) && (Runs(k, id) ==> k.table[id.pid].ours)
  }

  /** ... and has not reaped it. */
  ghost predicate Held(k: Kernel, id: Identity) {
    Known(k, id) && Runs(k, id)
  }

  /** No member of the group that `id` founded is left. */
  ghost predicate Absent(k: Kernel, id: Identity) {
    forall q <- k.table :: k.table[q].group != id.birth
  }

  ghost predicate NewProc(k: Kernel, pid: Pid, ticks: nat, p: Proc) {
    && Free(k, pid, ticks) && p.birth == k.births && p.ticks == ticks
    && if p.pgid == pid then p.group == k.births else exists q <- k.table :: k.table[q].pgid == p.pgid && k.table[q].group == p.group
  }

  lemma BirthKeepsStamps(k: Kernel, pid: Pid, ticks: nat, p: Proc)
    requires Sane(k) && NewProc(k, pid, ticks, p)
    ensures Stamped(Born(k, pid, ticks, p)) && Distinct(Born(k, pid, ticks, p))
  {}

  lemma BirthKeepsGroups(k: Kernel, pid: Pid, ticks: nat, p: Proc)
    requires Sane(k) && NewProc(k, pid, ticks, p)
    ensures Grouped(Born(k, pid, ticks, p))
  {
    assert forall q <- k.table :: k.table[q].pgid != pid && k.table[q].group < k.births;
  }

  lemma RegroupKeepsStamps(k: Kernel, pid: Pid)
    requires Sane(k) && Possible(k, Regroup(pid))
    ensures Stamped(Happen(k, Regroup(pid))) && Distinct(Happen(k, Regroup(pid)))
  {}

  lemma RegroupKeepsGroups(k: Kernel, pid: Pid)
    requires Sane(k) && Possible(k, Regroup(pid))
    ensures Grouped(Happen(k, Regroup(pid)))
  {
    assert forall q <- k.table :: q != pid ==>
      k.table[q].pgid != pid && k.table[q].group != k.table[pid].birth && k.table[q].birth != k.table[pid].birth;
  }

  lemma JoinKeepsStamps(k: Kernel, pid: Pid, to: Pid)
    requires Sane(k) && Possible(k, Join(pid, to))
    ensures Stamped(Happen(k, Join(pid, to))) && Distinct(Happen(k, Join(pid, to)))
  {}

  lemma JoinKeepsGroups(k: Kernel, pid: Pid, to: Pid)
    requires Sane(k) && Possible(k, Join(pid, to))
    ensures Grouped(Happen(k, Join(pid, to)))
  {
    var t := Happen(k, Join(pid, to));
    assert forall q <- k.table :: q != pid ==> t.table[q] == k.table[q];
  }

  lemma HappenKeepsSane(k: Kernel, e: Event)
    requires Sane(k) && Possible(k, e)
    ensures Sane(Happen(k, e))
  {
    match e
    case Fork(parent, pid, ticks) =>
      var p := Proc(k.births, k.table[parent].pgid, k.table[parent].group, ticks, false, false);
      BirthKeepsStamps(k, pid, ticks, p);
      BirthKeepsGroups(k, pid, ticks, p);
    case Regroup(pid) =>
      RegroupKeepsStamps(k, pid);
      RegroupKeepsGroups(k, pid);
    case Join(pid, to) =>
      JoinKeepsStamps(k, pid, to);
      JoinKeepsGroups(k, pid, to);
    case _ =>
  }

  /** What a founder can count on from one state of the kernel to a later one: it keeps its number as long as it
      runs and does not come back once it is gone, nor does its group; and nobody else reaps a child of ours. */
  ghost predicate Lasts(k: Kernel, k': Kernel, id: Identity) {
    && Founder(k', id) && (Runs(k', id) ==> Runs(k, id)) && (Absent(k, id) ==> Absent(k', id))
    && (Known(k, id) ==> Known(k', id)) && (Held(k, id) ==> Held(k', id))
  }

  lemma ForkKeepsIdentity(k: Kernel, e: Event, id: Identity)
    requires Sane(k) && e.Fork? && Possible(k, e) && Founder(k, id)
    ensures Lasts(k, Happen(k, e), id)
  {}

  lemma EndKeepsIdentity(k: Kernel, e: Event, id: Identity)
    requires Sane(k) && (e.Exit? || e.Reap?) && Possible(k, e) && Founder(k, id)
    ensures Lasts(k, Happen(k, e), id)
  {}

  lemma JoinKeepsIdentity(k: Kernel, e: Event, id: Identity)
    requires Sane(k) && e.Join? && Possible(k, e) && Founder(k, id)
    ensures Lasts(k, Happen(k, e), id)
  {}

  lemma RegroupKeepsIdentity(k: Kernel, e: Event, id: Identity)
    requires Sane(k) && e.Regroup? && Possible(k, e) && Founder(k, id)
    ensures Lasts(k, Happen(k, e), id)
  {}

  /** Whatever happens, a founder keeps its number until it is reaped, and a group that is gone never comes back. */
  lemma HappenKeepsIdentity(k: Kernel, e: Event, id: Identity)
    requires Sane(k) && Possible(k, e) && Founder(k, id)
    ensures Lasts(k, Happen(k, e), id)
  {
    match e
    case Fork(_, _, _) => ForkKeepsIdentity(k, e, id);
    case Regroup(_) => RegroupKeepsIdentity(k, e, id);
    case Join(_, _) => JoinKeepsIdentity(k, e, id);
    case Exit(_) => EndKeepsIdentity(k, e, id);
    case Reap(_) => EndKeepsIdentity(k, e, id);
  }

  lemma SpawnMakesIdentity(k: Kernel, pid: Pid, ticks: nat)
    requires Sane(k) && Free(k, pid, ticks)
    ensures Sane(Spawn(k, pid, ticks)) && Held(Spawn(k, pid, ticks), Identity(pid, ticks, k.births))
  {
    var p := Proc(k.births, pid, k.births, ticks, false, true);
    BirthKeepsStamps(k, pid, ticks, p);
    BirthKeepsGroups(k, pid, ticks, p);
  }

  /** A group number is that of the founder's group exactly as long as the group has a member. */
  lemma NumberIsTheGroup(k: Kernel, id: Identity, q: Pid)
    requires Sane(k) && Founder(k, id) && q in k.table && k.table[q].pgid == id.pid
    ensures k.table[q].group == id.birth <==> !Absent(k, id)
  {}

  /** Number and start time together identify the process. */
  lemma TokenIdentifies(k: Kernel, id: Identity)
    requires Sane(k) && Founder(k, id) && id.pid in k.table
    ensures k.table[id.pid].ticks == id.ticks <==> Runs(k, id)
    ensures Runs(k, id) ==> k.table[id.pid].pgid == id.pid && !Absent(k, id)
  {}

  lemma NumberGoneIsAbsent(k: Kernel, id: Identity)
    requires Founder(k, id) && !GroupExists(k, id.pid)
    ensures Absent(k, id)
  {}
}
