/**
 A running machine: the shared directory and its processes, changed in place one atomic
 operation at a time.  The code of one process is written as an ordinary method; between any
 two of its operations the other processes and the kernel may do anything the protocol allows.
 */
module Machines {
  import opened FileSystem
  import opened Publication
  import opened PublicationInvariant
  import opened PublicationTheorems

  /** How one operation of a process turns out. */
  datatype Fault = Fine | Fails(cause: Cause, picked: set<Name>, effect: bool)

  /** Everything a method cannot know: what its k-th operation comes to, what the others do just
      before it, which fresh names and inodes it is given, what a directory scan returns. */
  datatype Weather = Weather(
    faults: nat -> Fault,
    others: nat -> seq<Action>,
    tag: nat,
    inode: Inode,
    check: Check,
    companions: set<nat>)

  /** What a failing operation other than the link itself raises. */
  function CauseOf(f: Fault): Cause {
    if f.Fails? && f.cause.Interrupt? then Interrupt else OsFailure
  }

  predicate Foreign(p: Pid, a: Action) {
    match a
    case KernelWriteback(_) => true
    case PowerLoss(_, _) => false
    case _ => a.p != p
  }

  lemma ForeignStepKeepsProc(s: Sys, p: Pid, a: Action)
    requires p in s.procs && Enabled(s, a) && Foreign(p, a)
    ensures p in Next(s, a).procs && Next(s, a).procs[p] == s.procs[p]
  {}

  class Machine {
    var sys: Sys
    ghost var origin: Sys
    ghost var history: seq<Action>

    /** Every state of the machine is a reachable state of the protocol. */
    ghost predicate Valid()
      reads this
    {
      Reaches(origin, history, sys)
    }

    /** One atomic operation. */
    method Do(a: Action)
      requires Valid() && Enabled(sys, a)
      modifies this
      ensures Valid() && origin == old(origin)
      ensures history == old(history) + [a]
      ensures sys == Next(old(sys), a)
    {
      sys := Next(sys, a);
      history := history + [a];
      assert history[..|history| - 1] == old(history);
    }

    /** The others run: every scheduled action that is possible and is not process `p`'s. */
    method Others(p: Pid, schedule: seq<Action>)
      requires Valid() && p in sys.procs
      modifies this
      ensures Valid() && origin == old(origin) && old(history) <= history
      ensures p in sys.procs && sys.procs[p] == old(sys.procs[p])
      ensures Final in old(sys).dir.visible ==> FinalKept(old(sys).dir, sys.dir)
      ensures Final in old(sys).dir.durable ==> Final in sys.dir.durable
      ensures schedule == [] ==> sys == old(sys)
    {
      for k := 0 to |schedule|
        invariant Valid() && origin == old(origin) && old(history) <= history
        invariant p in sys.procs && sys.procs[p] == old(sys.procs[p])
        invariant Final in old(sys).dir.visible ==> FinalKept(old(sys).dir, sys.dir)
        invariant Final in old(sys).dir.durable ==> Final in sys.dir.durable
        invariant k == 0 ==> sys == old(sys)
      {
        if Foreign(p, schedule[k]) && Enabled(sys, schedule[k]) {
          ForeignStepKeepsProc(sys, p, schedule[k]);
          FinalStays(this, schedule[k]);
          Do(schedule[k]);
        }
      }
    }
  }

  lemma FinalStays(m: Machine, a: Action)
    requires m.Valid() && Enabled(m.sys, a) && !a.PowerLoss?
    ensures Final in m.sys.dir.visible ==> FinalKept(m.sys.dir, Next(m.sys, a).dir)
    ensures Final in m.sys.dir.durable ==> Final in m.sys.dir.visible && Final in Next(m.sys, a).dir.durable
  {
    RunKeepsInv(m.origin, m.history, m.sys);
    if Final in m.sys.dir.visible {
      StepKeepsFinal(m.sys, a);
    }
  }

  /** Nobody else does anything. */
  ghost predicate Alone(w: Weather) {
    forall k :: w.others(k) == []
  }

  /** What a visible final name shows is complete. */
  lemma FinalIsComplete(m: Machine)
    requires m.Valid() && Final in m.sys.dir.visible
    ensures FinalReadable(m.sys.dir) && m.sys.dir.files[m.sys.dir.visible[Final]].Complete()
  {
    RunKeepsInv(m.origin, m.history, m.sys);
  }

  lemma LinkPossible(m: Machine, p: Pid)
    requires m.Valid() && At(m.sys, p, Backed)
    ensures Enabled(m.sys, Link(p))
  {
    RunKeepsInv(m.origin, m.history, m.sys);
  }

  lemma WritePossible(m: Machine, p: Pid)
    requires m.Valid() && (At(m.sys, p, Writing) || At(m.sys, p, Written))
    ensures m.sys.procs[p].inode in m.sys.dir.files
  {
    RunKeepsInv(m.origin, m.history, m.sys);
  }
}
