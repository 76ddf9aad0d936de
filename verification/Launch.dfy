/**
 The launch of the durable executor: spawn it in a session of its own, wait for the receipt that
 names it, and on any failure kill the session and prove it gone - or say honestly that this could
 not be done.
 */
module Launch {
  import opened FileSystem
  import opened Processes

  datatype Signum = SigInt | SigTerm | SigKill | OtherSignal

  /** What a delivered signal reached, in terms no number can blur. */
  datatype Sent = ToProcess(signum: Signum, birth: nat) | ToGroup(signum: Signum, group: nat)

  /** A launch receipt; `bound` says that its scheduled fields are those of the prepared attempt. */
  datatype Receipt = Receipt(bound: bool, token: Token)

  datatype Fault = Fine | Denied | Broken

  /** What happens before an operation, and what it comes to. */
  datatype Tick = Tick(events: seq<Event>, published: Option<Receipt>, fault: Fault)

  datatype Probe = Exists | Missing | ProbeFailed
  datatype Delivery = Delivered | NotDelivered | DeliveryFailed
  datatype Token = Token(pid: Pid, pgid: Pid, ticks: Option<nat>)
  datatype Outcome =
    | Launched(token: Token)
    | Refused                              // AttemptRuntimeError
    | Uncertain(named: Option<Token>)      // AttemptLaunchUncertainError

  lemma ReapKeepsIdentity(k: Kernel, id: Identity)
    requires Sane(k) && Held(k, id)
    ensures var t := k.(table := k.table - {id.pid}); Sane(t) && Known(t, id) && (Absent(k, id) ==> Absent(t, id))
  {}

  /** Run of the kernel alone. */
  function Later(k: Kernel, events: seq<Event>): Kernel
    decreases |events|
  {
    if events == [] then k
    else Later(if Possible(k, events[0]) then Happen(k, events[0]) else k, events[1..])
  }

  /** What every founder can count on across a stretch of time. */
  ghost predicate Evolves(k: Kernel, k': Kernel) {
    forall id {:trigger Lasts(k, k', id)} :: Founder(k, id) ==> Lasts(k, k', id)
  }

  /** The group that carries a number. */
  ghost function GroupNamed(k: Kernel, pgid: Pid): nat
    requires GroupExists(k, pgid)
  {
    var q :| q in k.table && k.table[q].pgid == pgid;
    k.table[q].group
  }

  lemma NumberReaches(k: Kernel, k': Kernel, pgid: Pid)
    requires Sane(k') && Evolves(k, k') && GroupExists(k', pgid)
    ensures forall id :: Founder(k, id) && id.pid == pgid ==> (GroupNamed(k', pgid) == id.birth <==> !Absent(k', id))
    ensures pgid in k'.table && k'.table[pgid].pgid == pgid ==> GroupNamed(k', pgid) == k'.table[pgid].group
  {
    var q :| q in k'.table && k'.table[q].pgid == pgid && k'.table[q].group == GroupNamed(k', pgid);
    forall id | Founder(k, id) && id.pid == pgid ensures k'.table[q].group == id.birth <==> !Absent(k', id) {
      assert Lasts(k, k', id);
      NumberIsTheGroup(k', id, q);
    }
  }

  lemma HeldStays(k: Kernel, k': Kernel)
    requires Sane(k') && Evolves(k, k')
    ensures forall id :: Held(k, id) ==> Runs(k', id) && !Absent(k', id)
    ensures forall id :: Founder(k, id) ==> Founder(k', id)
  {
    forall id | Founder(k, id) ensures Founder(k', id) && (Held(k, id) ==> Runs(k', id) && !Absent(k', id)) {
      assert Lasts(k, k', id);
      if Runs(k', id) {
        TokenIdentifies(k', id);
      }
    }
  }

  lemma EvolvesOn(k: Kernel, mid: Kernel, k': Kernel)
    requires Evolves(k, mid) && Evolves(mid, k')
    ensures Evolves(k, k')
  {
    forall id | Founder(k, id) ensures Lasts(k, k', id) {
      assert Lasts(k, mid, id) && Lasts(mid, k', id);
    }
  }

  lemma {:induction false} LaterEvolves(k: Kernel, events: seq<Event>)
    requires Sane(k)
    ensures Sane(Later(k, events)) && Evolves(k, Later(k, events))
    decreases |events|
  {
    if events != [] {
      var next := if Possible(k, events[0]) then Happen(k, events[0]) else k;
      if Possible(k, events[0]) {
        HappenKeepsSane(k, events[0]);
        forall id | Founder(k, id) ensures Lasts(k, next, id) {
          HappenKeepsIdentity(k, events[0], id);
        }
      }
      LaterEvolves(next, events[1..]);
      EvolvesOn(k, next, Later(k, events));
    }
  }

  /** The token is the record of this process. */
  predicate Records(token: Token, id: Identity) {
    token.pid == id.pid && token.ticks == Some(id.ticks)
  }

  /** Exactly one more signal was sent. */
  predicate OneMore(before: seq<Sent>, after: seq<Sent>) {
    |after| == |before| + 1 && before <= after
  }

  /** What is left of a schedule after `n` operations. */
  function Rest(schedule: seq<Tick>, n: nat): seq<Tick> {
    if n == 0 || schedule == [] then schedule else Rest(schedule[1..], n - 1)
  }

  /** The next `n` operations happen at once and succeed. */
  predicate Idle(schedule: seq<Tick>, n: nat) {
    n == 0 || (schedule != [] && schedule[0] == Tick([], None, Fine) && Idle(schedule[1..], n - 1))
  }

  /** ... or at least none of them fails. */
  predicate Smooth(schedule: seq<Tick>, n: nat) {
    n == 0 || schedule == [] || (schedule[0].fault.Fine? && Smooth(schedule[1..], n - 1))
  }

  lemma {:induction false} Shorter(schedule: seq<Tick>, n: nat)
    ensures Smooth(schedule, n + 1) ==> Smooth(schedule, n) && Smooth(Rest(schedule, n), 1)
    ensures Idle(schedule, n + 1) ==> Idle(schedule, n) && Idle(Rest(schedule, n), 1)
    ensures Rest(schedule, n + 1) == Rest(Rest(schedule, n), 1)
  {
    if n > 0 && schedule != [] {
      Shorter(schedule[1..], n - 1);
    }
  }

  /** The process is at the head of its own group. */
  predicate Leads(k: Kernel, pid: Pid) {
    pid in k.table && k.table[pid].pgid == pid
  }

  /** The process is there and has not exited. */
  predicate Lives(k: Kernel, pid: Pid) {
    pid in k.table && !k.table[pid].zombie
  }

  /** Whatever happens, this process does not exit. */
  predicate Leaves(events: seq<Event>, pid: Pid) {
    forall e <- events :: e.Exit? ==> e.pid != pid
  }

  lemma {:induction false} LaterLives(k: Kernel, events: seq<Event>, id: Identity)
    requires Sane(k) && Held(k, id) && Lives(k, id.pid) && Leaves(events, id.pid)
    ensures Lives(Later(k, events), id.pid)
    decreases |events|
  {
    if events != [] {
      var e := events[0];
      if Possible(k, e) {
        HappenKeepsSane(k, e);
        HappenKeepsIdentity(k, e, id);
        assert e in events;
        LaterLives(Happen(k, e), events[1..], id);
      } else {
        LaterLives(k, events[1..], id);
      }
    }
  }

  /** What the k-th operation comes to, and what the kernel and the receipt's name are after `n` of them. */
  function FaultAt(schedule: seq<Tick>, k: nat): Fault {
    if k < |schedule| then schedule[k].fault else Fine
  }

  function After(k: Kernel, schedule: seq<Tick>, n: nat): Kernel
    decreases n
  {
    if n == 0 || schedule == [] then k else After(Later(k, schedule[0].events), schedule[1..], n - 1)
  }

  function ReceiptAfter(receipt: Option<Receipt>, schedule: seq<Tick>, n: nat): Option<Receipt>
    decreases n
  {
    if n == 0 || schedule == [] || receipt.Some? then receipt else ReceiptAfter(schedule[0].published, schedule[1..], n - 1)
  }

  /** After `n` more operations, and not before, the receipt appears; the process does not exit until then, and the
      operations behind it succeed. */
  predicate Arrives(schedule: seq<Tick>, n: nat, doc: Receipt, pid: Pid) {
    && schedule != [] && Leaves(schedule[0].events, pid)
    && if n == 0 then schedule[0].published == Some(doc) && Smooth(schedule[1..], 3)
       else schedule[0].published.None? && Arrives(schedule[1..], n - 1, doc, pid)
  }

  /** ... within `limit` operations. */
  predicate ArrivesWithin(schedule: seq<Tick>, limit: nat, doc: Receipt, pid: Pid) {
    exists n: nat :: n <= limit && Arrives(schedule, n, doc, pid)
  }

  /** The process is the only one with its group number. */
  predicate Sole(k: Kernel, pid: Pid) {
    forall q <- k.table :: k.table[q].pgid == pid ==> q == pid
  }

  lemma ExitAlone(k: Kernel, pid: Pid)
    requires pid in k.table
    ensures var t := Later(k, [Exit(pid)]); pid in t.table && t.table[pid].zombie && (Sole(k, pid) ==> Sole(t, pid))
  {
    assert [Exit(pid)][1..] == [];
  }

  lemma FivePlusTwo(schedule: seq<Tick>)
    requires Idle(schedule, 5)
    ensures Idle(schedule, 1) && Idle(Rest(schedule, 1), 4) && Rest(Rest(schedule, 1), 4) == Rest(schedule, 5)
  {}

  class Launcher {
    const linux: bool
    var kernel: Kernel
    var schedule: seq<Tick>
    var receipt: Option<Receipt>       // what the launch receipt's final name shows
    var durable: bool                  // ... and whether that name is durable
    var pid: Pid                       // the Popen handle
    var returned: bool                 // ... and whether it has collected the exit status
    ghost var sent: seq<Sent>
    ghost var spawned: Option<Identity>

    constructor (linux: bool, kernel: Kernel, schedule: seq<Tick>, receipt: Option<Receipt>)
      requires Sane(kernel)
      ensures Valid() && this.kernel == kernel && this.schedule == schedule && this.receipt == receipt && this.linux == linux
      ensures spawned == None && sent == []
    {
      this.linux := linux;
      this.kernel := kernel;
      this.schedule := schedule;
      this.receipt := receipt;
      this.durable := false;
      this.pid := 0;
      this.returned := false;
      this.sent := [];
      this.spawned := None;
    }

    ghost predicate Valid()
      reads this
    {
      && Sane(kernel)
      && (spawned.Some? ==> pid == spawned.value.pid && Known(kernel, spawned.value) && (!returned ==> Held(kernel, spawned.value)))
      && (durable ==> receipt.Some?)
    }

    /** The world keeps its promises to a launched process: nothing else of the launcher's changes. */
    twostate predicate Steady()
      reads this
    {
      && Valid() && spawned == old(spawned) && pid == old(pid)
      && (old(receipt.Some?) ==> receipt == old(receipt)) && (old(durable) ==> durable)
      && (old(returned) ==> returned)
      && (old(spawned.Some? && Absent(kernel, spawned.value)) ==> spawned.Some? && Absent(kernel, spawned.value))
    }

    /** Everyone else, up to the next operation of the launcher, and what that operation comes to. */
    method Pause() returns (fault: Fault)
      requires Valid()
      modifies this`kernel, this`schedule, this`receipt
      ensures Steady() && durable == old(durable) && returned == old(returned)
      ensures Evolves(old(kernel), kernel)
      ensures fault == if old(schedule) == [] then Fine else old(schedule)[0].fault
      ensures schedule == if old(schedule) == [] then [] else old(schedule)[1..]
      ensures kernel == if old(schedule) == [] then old(kernel) else Later(old(kernel), old(schedule)[0].events)
      ensures receipt == if old(receipt).Some? || old(schedule) == [] then old(receipt) else old(schedule)[0].published
    {
      if schedule == [] {
        return Fine;
      }
      var tick := schedule[0];
      schedule := schedule[1..];
      fault := tick.fault;
      if receipt.None? {
        receipt := tick.published;
      }
      LaterEvolves(kernel, tick.events);
      if spawned.Some? {
        assert Lasts(kernel, Later(kernel, tick.events), spawned.value);
      }
      kernel := Later(kernel, tick.events);
    }

    /** `Popen.poll()`: collects the exit status of the executor if there is one. */
    method Poll() returns (exited: bool)
      requires Valid() && spawned.Some?
      modifies this`kernel, this`schedule, this`receipt, this`returned
      ensures Steady() && durable == old(durable)
      ensures exited == returned && schedule == Rest(old(schedule), 1)
      ensures receipt == if old(receipt).Some? || old(schedule) == [] then old(receipt) else old(schedule)[0].published
      ensures !exited ==> pid in kernel.table && !kernel.table[pid].zombie
      ensures old(!returned && schedule != [] && Lives(kernel, pid) && Leaves(schedule[0].events, pid)) ==> !exited && Lives(kernel, pid)
      ensures old(!returned && schedule != []) ==>
                var k := Later(old(kernel), old(schedule)[0].events);
                kernel == if exited then k.(table := k.table - {pid}) else k
      ensures old(!returned && schedule != []) && !Lives(Later(old(kernel), old(schedule)[0].events), pid) ==> exited
    {
      if schedule != [] && Leaves(schedule[0].events, pid) && Lives(kernel, pid) && !returned {
        LaterLives(kernel, schedule[0].events, spawned.value);
      }
      var _ := Pause();
      if !returned && kernel.table[pid].zombie {
        Collect();
      }
      exited := returned;
    }

    method Collect()
      requires Valid() && spawned.Some? && !returned
      modifies this`kernel, this`returned
      ensures Steady() && returned && kernel == old(kernel).(table := old(kernel).table - {pid})
    {
      ReapKeepsIdentity(kernel, spawned.value);
      kernel := kernel.(table := kernel.table - {pid});
      returned := true;
    }

    /** `Popen.wait(timeout=5)`. */
    method Wait() returns (exited: bool)
      requires Valid() && spawned.Some?
      modifies this`kernel, this`schedule, this`receipt, this`returned
      ensures Steady() && durable == old(durable)
      ensures exited == returned && schedule == Rest(old(schedule), 1)
      ensures !exited ==> Lives(kernel, pid)
      ensures old(!returned && schedule != []) ==>
                var k := Later(old(kernel), old(schedule)[0].events);
                kernel == (if exited then k.(table := k.table - {pid}) else k) && (!Lives(k, pid) ==> exited)
    {
      exited := Poll();
    }

    method ReapLeader() returns (reaped: bool)
      requires Valid() && spawned.Some?
      modifies this`kernel, this`schedule, this`receipt, this`returned
      ensures Steady() && durable == old(durable)
      ensures reaped == returned
      ensures !reaped ==> schedule == Rest(old(schedule), 2) && Lives(kernel, pid)
    {
      Shorter(schedule, 1);
      reaped := Poll();
      if !reaped {
        reaped := Wait();
      }
    }

    /** `_linux_process_start_ticks`. */
    method StartTicks(of: Pid) returns (ticks: Option<nat>)
      requires Valid()
      modifies this`kernel, this`schedule, this`receipt
      ensures Steady() && durable == old(durable) && returned == old(returned)
      ensures Evolves(old(kernel), kernel)
      ensures ticks.Some? ==> linux && of in kernel.table && kernel.table[of].ticks == ticks.value && old(FaultAt(schedule, 0)).Fine?
      ensures linux && old(Smooth(schedule, 1)) ==> ticks == if of in kernel.table then Some(kernel.table[of].ticks) else None
      ensures old(Idle(schedule, 1)) ==> kernel == old(kernel)
      ensures schedule == Rest(old(schedule), 1)
      ensures receipt == if old(receipt).Some? || old(schedule) == [] then old(receipt) else old(schedule)[0].published
      ensures kernel == if old(schedule) == [] then old(kernel) else Later(old(kernel), old(schedule)[0].events)
    {
      var fault := Pause();
      ticks := if linux && fault.Fine? && of in kernel.table then Some(kernel.table[of].ticks) else None;
    }

    /** `process_identity_matches`: a match means that the process recorded by the token runs at that moment,
        whoever is its parent; and if nothing fails, a process that still runs is recognised. */
    method ProcessIdentityMatches(token: Token) returns (r: Option<bool>)
      requires Valid()
      modifies this`kernel, this`schedule, this`receipt
      ensures Steady() && durable == old(durable) && returned == old(returned)
      ensures Evolves(old(kernel), kernel)
      ensures r == Some(true) ==> token.ticks.Some?
      ensures r == Some(true) ==> forall id :: old(Founder(kernel, id)) && Records(token, id) ==> Runs(kernel, id)
      ensures linux && old(Smooth(schedule, 3)) && token.pid == token.pgid ==>
                forall id :: old(Founder(kernel, id)) && Records(token, id) ==> (r == Some(true) <==> Runs(kernel, id))
      ensures old(Idle(schedule, 3) && linux && Carries(token)) ==> r == Some(true) && kernel == old(kernel) && schedule == Rest(old(schedule), 3)
    {
      Shorter(schedule, 2);
      r := ProbeNumber(token);
      if token.ticks.None? {
        return if r == Some(true) then Some(false) else r;
      }
      if r != Some(true) {
        return;
      }
      ghost var mid := kernel;
      var same := CompareTicks(token);
      r := Some(same);
      EvolvesOn(old(kernel), mid, kernel);
      forall id | old(Founder(kernel, id)) ensures Founder(mid, id) {
        assert Lasts(old(kernel), mid, id);
      }
    }

    /** The recorded start time against the one the number has now. */
    method CompareTicks(token: Token) returns (same: bool)
      requires Valid() && token.ticks.Some?
      modifies this`kernel, this`schedule, this`receipt
      ensures Steady() && durable == old(durable) && returned == old(returned)
      ensures Evolves(old(kernel), kernel)
      ensures same ==> forall id :: old(Founder(kernel, id)) && Records(token, id) ==> Runs(kernel, id)
      ensures linux && old(Smooth(schedule, 1)) ==>
                forall id :: old(Founder(kernel, id)) && Records(token, id) ==> (same <==> Runs(kernel, id))
      ensures old(Idle(schedule, 1) && linux && Carries(token)) ==> same && kernel == old(kernel)
      ensures schedule == Rest(old(schedule), 1)
    {
      if Idle(schedule, 1) {
        assert Smooth(schedule[1..], 0);
      }
      var actual := StartTicks(token.pid);
      same := actual == token.ticks;
      forall id | old(Founder(kernel, id)) && Records(token, id) && id.pid in kernel.table
        ensures kernel.table[id.pid].ticks == id.ticks <==> Runs(kernel, id)
      {
        assert Lasts(old(kernel), kernel, id);
        TokenIdentifies(kernel, id);
      }
    }

    /** Signal zero and `getpgid`. */
    method ProbeNumber(token: Token) returns (r: Option<bool>)
      requires Valid()
      modifies this`kernel, this`schedule, this`receipt
      ensures Steady() && durable == old(durable) && returned == old(returned)
      ensures Evolves(old(kernel), kernel)
      ensures old(Smooth(schedule, 2)) ==> r.Some?
      ensures old(Smooth(schedule, 2)) && token.pid == token.pgid && r != Some(true) ==>
                forall id :: old(Founder(kernel, id)) && Records(token, id) ==> !Runs(kernel, id)
      ensures r == Some(true) ==> schedule == Rest(old(schedule), 2)
      ensures old(FaultAt(schedule, 0)).Broken? ==> r == None
      ensures old(FaultAt(schedule, 0)).Denied? ==> r == Some(false)
      ensures old(FaultAt(schedule, 0)).Fine? && token.pid !in old(After(kernel, schedule, 1)).table ==>
                r == Some(false) && schedule == Rest(old(schedule), 1)
      ensures old(Idle(schedule, 2) && token.pid in kernel.table && kernel.table[token.pid].pgid == token.pgid) ==>
                r == Some(true) && kernel == old(kernel)
    {
      var fault := Pause();
      if fault.Broken? {
        return None;
      } else if fault.Denied? || token.pid !in kernel.table {
        return Some(false);
      }
      ghost var mid := kernel;
      r := ProbeGroup(token);
      EvolvesOn(old(kernel), mid, kernel);
      forall id | old(Founder(kernel, id)) ensures Founder(mid, id) {
        assert Lasts(old(kernel), mid, id);
      }
    }

    method ProbeGroup(token: Token) returns (r: Option<bool>)
      requires Valid()
      modifies this`kernel, this`schedule, this`receipt
      ensures Steady() && durable == old(durable) && returned == old(returned)
      ensures Evolves(old(kernel), kernel)
      ensures old(Smooth(schedule, 1)) ==> r.Some?
      ensures old(Smooth(schedule, 1)) && token.pid == token.pgid && r != Some(true) ==>
                forall id :: old(Founder(kernel, id)) && Records(token, id) ==> !Runs(kernel, id)
      ensures schedule == Rest(old(schedule), 1)
      ensures old(Idle(schedule, 1) && token.pid in kernel.table && kernel.table[token.pid].pgid == token.pgid) ==>
                r == Some(true) && kernel == old(kernel)
    {
      var fault := Pause();
      if fault.Broken? {
        return None;
      } else if fault.Denied? {
        return Some(false);
      }
      r := Some(token.pid in kernel.table && kernel.table[token.pid].pgid == token.pgid);
      forall id | old(Founder(kernel, id)) && Records(token, id) && Runs(kernel, id) ensures kernel.table[id.pid].pgid == id.pid {
        assert Lasts(old(kernel), kernel, id);
        TokenIdentifies(kernel, id);
      }
    }

    /** The token's number is carried, at the head of its group, by the process it records. */
    ghost predicate Carries(token: Token)
      reads this
    {
      && token.pid in kernel.table && kernel.table[token.pid].pgid == token.pgid
      && token.ticks == Some(kernel.table[token.pid].ticks)
    }

    /** `os.killpg`: the group that is reached is the one its founder founded exactly if that one has a member. */
    method KillGroup(pgid: Pid, signum: Signum) returns (d: Delivery)
      requires Valid()
      modifies this`kernel, this`schedule, this`receipt, this`sent
      ensures Steady() && durable == old(durable) && returned == old(returned)
      ensures Evolves(old(kernel), kernel)
      ensures !d.Delivered? ==> sent == old(sent)
      ensures d.Delivered? ==> OneMore(old(sent), sent) && sent[|old(sent)|].ToGroup? && sent[|old(sent)|].signum == signum
      ensures d.Delivered? ==> forall id :: old(Founder(kernel, id)) && id.pid == pgid ==>
                                 (sent[|old(sent)|].group == id.birth <==> !Absent(kernel, id))
      ensures d.Delivered? && pgid in kernel.table && kernel.table[pgid].pgid == pgid ==>
                sent[|old(sent)|].group == kernel.table[pgid].group
      ensures d.Delivered? <==> GroupExists(old(After(kernel, schedule, 1)), pgid) && old(FaultAt(schedule, 0)).Fine?
      ensures old(schedule != [] && schedule[0].fault.Fine?) && GroupExists(Later(old(kernel), old(schedule)[0].events), pgid) ==>
                d.Delivered? && kernel == Later(old(kernel), old(schedule)[0].events) && schedule == old(schedule)[1..]
    {
      var fault := Pause();
      if !GroupExists(kernel, pgid) {
        return NotDelivered;
      } else if !fault.Fine? {
        return DeliveryFailed;
      }
      NumberReaches(old(kernel), kernel, pgid);
      sent := sent + [ToGroup(signum, GroupNamed(kernel, pgid))];
      d := Delivered;
    }

    /** `os.kill`. */
    method KillOne(target: Pid, signum: Signum) returns (d: Delivery)
      requires Valid()
      modifies this`kernel, this`schedule, this`receipt, this`sent
      ensures Steady() && durable == old(durable) && returned == old(returned)
      ensures Evolves(old(kernel), kernel)
      ensures !d.Delivered? ==> sent == old(sent)
      ensures d.Delivered? ==> target in kernel.table && sent == old(sent) + [ToProcess(signum, kernel.table[target].birth)]
      ensures old(schedule != [] && schedule[0].fault.Fine?) && target in Later(old(kernel), old(schedule)[0].events).table ==>
                d.Delivered? && kernel == Later(old(kernel), old(schedule)[0].events)
    {
      var fault := Pause();
      if target !in kernel.table {
        return NotDelivered;
      } else if !fault.Fine? {
        return DeliveryFailed;
      }
      sent := sent + [ToProcess(signum, kernel.table[target].birth)];
      d := Delivered;
    }

    /** `signal_recorded_process`.  A signal leaves only after its token was recognised.  Whoever is the parent of
        the recorded process, a graceful signal reaches it if and only if it is still in the table at delivery, and
        SIGKILL reaches the group it founded if and only if that group still has a member then.  For a child of
        the launcher, which nobody else can reap, both are certain. */
    method SignalRecordedProcess(token: Token, signum: Signum) returns (d: Delivery)
      requires Valid()
      modifies this`kernel, this`schedule, this`receipt, this`sent
      ensures Steady() && durable == old(durable) && returned == old(returned)
      ensures !d.Delivered? ==> sent == old(sent)
      ensures d.Delivered? ==> !signum.OtherSignal? && token.ticks.Some? && OneMore(old(sent), sent)
      ensures d.Delivered? ==> forall id :: old(Founder(kernel, id)) && Records(token, id) && token.pid == token.pgid ==>
                                 Hits(sent[|old(sent)|], signum, id)
      ensures d.Delivered? ==> forall id :: old(Known(kernel, id)) && Records(token, id) && token.pid == token.pgid ==>
                sent == old(sent) + [if signum.SigKill? then ToGroup(SigKill, id.birth) else ToProcess(signum, id.birth)]
      ensures old(Recyclable(token, signum)) ==>
                && d.Delivered? && var k := Later(old(kernel), Rest(old(schedule), 3)[0].events);
                && (signum.SigKill? ==> kernel == k && schedule == Rest(old(schedule), 3)[1..])
                && sent == old(sent) + [if signum.SigKill? then ToGroup(SigKill, k.table[token.pid].group)
                                        else ToProcess(signum, k.table[token.pid].birth)]
    {
      if signum.OtherSignal? {
        return DeliveryFailed;
      }
      var matches := ProcessIdentityMatches(token);
      if matches.None? {
        return DeliveryFailed;
      } else if !matches.value {
        return NotDelivered;
      }
      ghost var mid := kernel;
      forall id | old(Founder(kernel, id)) && Records(token, id)
        ensures Founder(mid, id) && (old(Known(kernel, id)) ==> Held(mid, id))
      {
        assert Lasts(old(kernel), mid, id);
      }
      d := Deliver(token, signum);
    }

    /** The signal itself, after the check. */
    method Deliver(token: Token, signum: Signum) returns (d: Delivery)
      requires Valid()
      modifies this`kernel, this`schedule, this`receipt, this`sent
      ensures Steady() && durable == old(durable) && returned == old(returned)
      ensures !d.Delivered? ==> sent == old(sent)
      ensures d.Delivered? ==> OneMore(old(sent), sent)
      ensures d.Delivered? ==> forall id :: old(Founder(kernel, id)) && id.pid == token.pid == token.pgid ==>
                                 Hits(sent[|old(sent)|], signum, id)
      ensures d.Delivered? ==> forall id :: old(Held(kernel, id)) && id.pid == token.pid == token.pgid ==>
                sent == old(sent) + [if signum.SigKill? then ToGroup(SigKill, id.birth) else ToProcess(signum, id.birth)]
      ensures old(schedule != [] && schedule[0].fault.Fine?) && token.pid == token.pgid ==>
                var k := Later(old(kernel), old(schedule)[0].events);
                token.pid in k.table && k.table[token.pid].pgid == token.pid ==>
                  && d.Delivered? && (signum.SigKill? ==> kernel == k && schedule == old(schedule)[1..])
                  && sent == old(sent) + [if signum.SigKill? then ToGroup(SigKill, k.table[token.pid].group)
                                          else ToProcess(signum, k.table[token.pid].birth)]
    {
      if signum.SigKill? {
        d := DeliverKill(token);
      } else {
        d := DeliverGracefully(token, signum);
      }
    }

    method DeliverKill(token: Token) returns (d: Delivery)
      requires Valid()
      modifies this`kernel, this`schedule, this`receipt, this`sent
      ensures Steady() && durable == old(durable) && returned == old(returned)
      ensures !d.Delivered? ==> sent == old(sent)
      ensures d.Delivered? ==> OneMore(old(sent), sent)
      ensures d.Delivered? ==> forall id :: old(Founder(kernel, id)) && id.pid == token.pid == token.pgid ==>
                                 Hits(sent[|old(sent)|], SigKill, id)
      ensures d.Delivered? ==> forall id :: old(Held(kernel, id)) && id.pid == token.pid == token.pgid ==>
                sent == old(sent) + [ToGroup(SigKill, id.birth)]
      ensures old(schedule != [] && schedule[0].fault.Fine?) && token.pid == token.pgid ==>
                var k := Later(old(kernel), old(schedule)[0].events);
                Leads(k, token.pid) ==>
                  && d.Delivered? && kernel == k && schedule == old(schedule)[1..]
                  && sent == old(sent) + [ToGroup(SigKill, k.table[token.pid].group)]
    {
      d := KillGroup(token.pgid, SigKill);
      HeldStays(old(kernel), kernel);
    }

    method DeliverGracefully(token: Token, signum: Signum) returns (d: Delivery)
      requires Valid() && !signum.SigKill?
      modifies this`kernel, this`schedule, this`receipt, this`sent
      ensures Steady() && durable == old(durable) && returned == old(returned)
      ensures !d.Delivered? ==> sent == old(sent)
      ensures d.Delivered? ==> OneMore(old(sent), sent)
      ensures d.Delivered? ==> forall id :: old(Founder(kernel, id)) && id.pid == token.pid == token.pgid ==>
                                 Hits(sent[|old(sent)|], signum, id)
      ensures d.Delivered? ==> forall id :: old(Held(kernel, id)) && id.pid == token.pid == token.pgid ==>
                sent == old(sent) + [ToProcess(signum, id.birth)]
      ensures old(schedule != [] && schedule[0].fault.Fine?) ==>
                var k := Later(old(kernel), old(schedule)[0].events);
                Leads(k, token.pid) ==> d.Delivered? && sent == old(sent) + [ToProcess(signum, k.table[token.pid].birth)]
    {
      d := KillOne(token.pid, signum);
      HeldStays(old(kernel), kernel);
    }

    /** What the signal reached: the process, or its group, exactly if it is still there. */
    ghost predicate Hits(x: Sent, signum: Signum, id: Identity)
      reads this
    {
      if signum.SigKill? then x.ToGroup? && x.signum.SigKill? && (x.group == id.birth <==> !Absent(kernel, id))
      else x.ToProcess? && x.signum == signum && (x.birth == id.birth <==> Runs(kernel, id))
    }

    /** A schedule in which the token's check goes through undisturbed, and before the delivery its number has a
        new owner, at the head of a group of its own. */
    ghost predicate Recyclable(token: Token, signum: Signum)
      reads this
    {
      && linux && !signum.OtherSignal? && token.pid == token.pgid && Carries(token)
      && Idle(schedule, 3) && Rest(schedule, 3) != [] && Rest(schedule, 3)[0].fault.Fine?
      && var k := Later(kernel, Rest(schedule, 3)[0].events);
         token.pid in k.table && k.table[token.pid].pgid == token.pid
    }

    /** Such a schedule exists for every recorded process that is not a child of the launcher and is the last of
        its group: the signal, whichever it is, goes to a stranger. */
    method StrangerIsSignalled(id: Identity, keeper: Pid, ticks: nat, signum: Signum) returns (d: Delivery)
      requires Valid() && linux && !signum.OtherSignal?
      requires Founder(kernel, id) && Runs(kernel, id) && !kernel.table[id.pid].ours && id.pid > 0
      requires forall q <- kernel.table :: kernel.table[q].pgid == id.pid ==> q == id.pid
      requires keeper in kernel.table && keeper != id.pid && !kernel.table[keeper].zombie && (id.pid, ticks) !in kernel.stamps
      requires Idle(schedule, 3) && Rest(schedule, 3) != []
      requires Rest(schedule, 3)[0] == Tick([Exit(id.pid)] + ([Reap(id.pid)] + ([Fork(keeper, id.pid, ticks)] + ([Regroup(id.pid)] + []))), None, Fine)
      modifies this`kernel, this`schedule, this`receipt, this`sent
      ensures d.Delivered? && old(kernel).births != id.birth
      ensures sent == old(sent) + [if signum.SigKill? then ToGroup(SigKill, old(kernel).births) else ToProcess(signum, old(kernel).births)]
    {
      NumberChangesHands(kernel, id, keeper, ticks);
      TokenIdentifies(kernel, id);
      d := SignalRecordedProcess(Token(id.pid, id.pid, Some(id.ticks)), signum);
    }

    /** `_named_process_group_exists`. */
    method NamedProcessGroupExists(pgid: Pid) returns (r: Probe)
      requires Valid()
      modifies this`kernel, this`schedule, this`receipt
      ensures Steady() && durable == old(durable) && returned == old(returned)
      ensures r == if old(FaultAt(schedule, 0)).Broken? then ProbeFailed else if GroupExists(kernel, pgid) then Exists else Missing
      ensures kernel == old(After(kernel, schedule, 1)) && schedule == old(Rest(schedule, 1))
    {
      var fault := Pause();
      r := if fault.Broken? then ProbeFailed else if GroupExists(kernel, pgid) then Exists else Missing;
    }

    /** The identity a report about this launch must carry. */
    ghost predicate Names(token: Token)
      requires spawned.Some?
      reads this
    {
      && token.pid == token.pgid == spawned.value.pid
      && (token.ticks.Some? ==> token.ticks.value == spawned.value.ticks)
    }

    /** Everything sent since a moment went to the group of the freshly spawned executor, as SIGKILL. */
    ghost predicate OnlyKilledOurs(before: seq<Sent>)
      reads this
    {
      && before <= sent
      && forall i :: |before| <= i < |sent| ==> spawned.Some? && sent[i] == ToGroup(SigKill, spawned.value.birth)
    }

    method KillByToken(ticks: nat) returns (d: Delivery)
      requires Valid() && spawned.Some? && Names(Token(pid, pid, Some(ticks)))
      modifies this`kernel, this`schedule, this`receipt, this`sent
      ensures Steady() && durable == old(durable) && returned == old(returned) && OnlyKilledOurs(old(sent))
      ensures old(linux && !returned && Idle(schedule, 4)) ==>
                d.Delivered? && kernel == old(kernel) && schedule == old(Rest(schedule, 4)) && |sent| == |old(sent)| + 1
    {
      ghost var id := spawned.value;
      if !returned && Idle(schedule, 4) {
        TokenIdentifies(kernel, id);
        Shorter(schedule, 3);
        Shorter(schedule, 2);
        assert Rest(schedule, 4) == Rest(Rest(schedule, 3), 1);
      }
      d := SignalRecordedProcess(Token(pid, pid, Some(ticks)), SigKill);
      if d.Delivered? {
        assert sent == old(sent) + [ToGroup(SigKill, id.birth)];
      }
    }

    /** The SIGKILL of `_stop_failed_launch_group`: by the recorded token where there is one, else by the
        number of the child that is known not to have been collected. */
    method KillFailedGroup(ticks: Option<nat>) returns (d: Delivery)
      requires Valid() && spawned.Some? && Names(Token(pid, pid, ticks))
      modifies this`kernel, this`schedule, this`receipt, this`sent, this`returned
      ensures Steady() && durable == old(durable) && OnlyKilledOurs(old(sent))
      ensures old(linux && !returned && Idle(schedule, 4)) && ticks.Some? ==>
                d.Delivered? && kernel == old(kernel) && schedule == old(Rest(schedule, 4)) && |sent| == |old(sent)| + 1 && !returned
    {
      if ticks.Some? {
        d := KillByToken(ticks.value);
        return;
      }
      var exited := Poll();
      if exited {
        return NotDelivered;
      }
      d := KillByNumber();
    }

    /** The exact child, not yet collected, by the number of its session. */
    method KillByNumber() returns (d: Delivery)
      requires Valid() && spawned.Some? && !returned
      modifies this`kernel, this`schedule, this`receipt, this`sent
      ensures Steady() && durable == old(durable) && returned == old(returned) && OnlyKilledOurs(old(sent))
      ensures !old(FaultAt(schedule, 0)).Fine? ==> d.DeliveryFailed?
      ensures old(FaultAt(schedule, 0)).Fine? && !Leads(old(After(kernel, schedule, 1)), pid) ==> d.NotDelivered?
      ensures old(FaultAt(schedule, 0)).Fine? && Leads(old(After(kernel, schedule, 1)), pid) ==>
                d == if GroupExists(old(After(After(kernel, schedule, 1), Rest(schedule, 1), 1)), pid) && old(FaultAt(Rest(schedule, 1), 0)).Fine?
                     then Delivered else DeliveryFailed
    {
      var fault := Pause();
      if !fault.Fine? {
        d := DeliveryFailed;
      } else if !Leads(kernel, pid) {
        d := NotDelivered;
      } else {
        d := KillHeld();
        if d.NotDelivered? {
          d := DeliveryFailed;
        }
      }
    }

    method KillHeld() returns (d: Delivery)
      requires Valid() && spawned.Some? && !returned
      modifies this`kernel, this`schedule, this`receipt, this`sent
      ensures Steady() && durable == old(durable) && returned == old(returned) && OnlyKilledOurs(old(sent))
      ensures d.Delivered? <==> GroupExists(old(After(kernel, schedule, 1)), pid) && old(FaultAt(schedule, 0)).Fine?
    {
      ghost var id, before := spawned.value, kernel;
      d := KillGroup(pid, SigKill);
      if d.Delivered? {
        TokenIdentifies(kernel, id);
        assert sent[|old(sent)|].group == id.birth;
      }
    }

    /** Five operations go through undisturbed; then the killed process exits, and the last look succeeds. */
    ghost predicate Obeys(schedule: seq<Tick>)
      reads this`pid
    {
      Idle(schedule, 5) && Exits(Rest(schedule, 5))
    }

    ghost predicate Exits(schedule: seq<Tick>)
      reads this`pid
    {
      |schedule| >= 2 && schedule[0].events == [Exit(pid)] && schedule[1] == Tick([], None, Fine)
    }

    /** `_stop_failed_launch_group`: a normal return proves the whole group gone. */
    method StopFailedLaunchGroup(ticks: Option<nat>) returns (stopped: bool)
      requires Valid() && spawned.Some? && Names(Token(pid, pid, ticks))
      modifies this`kernel, this`schedule, this`receipt, this`sent, this`returned
      ensures Steady() && durable == old(durable) && OnlyKilledOurs(old(sent))
      ensures stopped ==> Absent(kernel, spawned.value)
      ensures old(linux && !returned && Obeys(schedule) && Sole(kernel, pid)) && ticks.Some? ==> stopped && |sent| == |old(sent)| + 1
    {
      if linux && !returned && Obeys(schedule) && Sole(kernel, pid) && ticks.Some? {
        TokenIdentifies(kernel, spawned.value);
        FivePlusTwo(schedule);
      }
      var probe := NamedProcessGroupExists(pid);
      if probe.ProbeFailed? {
        stopped := false;
      } else if probe.Missing? {
        NumberGoneIsAbsent(kernel, spawned.value);
        stopped := ReapLeader();
      } else {
        stopped := KillAndVerify(ticks);
      }
    }

    /** The group is there: kill it, collect its leader, look again. */
    method KillAndVerify(ticks: Option<nat>) returns (stopped: bool)
      requires Valid() && spawned.Some? && Names(Token(pid, pid, ticks))
      modifies this`kernel, this`schedule, this`receipt, this`sent, this`returned
      ensures Steady() && durable == old(durable) && OnlyKilledOurs(old(sent))
      ensures stopped ==> Absent(kernel, spawned.value)
      ensures old(linux && !returned && Idle(schedule, 4) && Exits(Rest(schedule, 4)) && Sole(kernel, pid)) && ticks.Some? ==>
                stopped && |sent| == |old(sent)| + 1
    {
      var d := KillFailedGroup(ticks);
      stopped := false;
      if d.Delivered? {
        stopped := VerifyGone();
      }
    }

    /** The leader is collected and nobody is left. */
    method VerifyGone() returns (gone: bool)
      requires Valid() && spawned.Some?
      modifies this`kernel, this`schedule, this`receipt, this`returned
      ensures Steady() && durable == old(durable)
      ensures gone ==> Absent(kernel, spawned.value) && returned
      ensures old(!returned && Exits(schedule) && Sole(kernel, pid)) ==> gone
    {
      if !returned && Exits(schedule) {
        ExitAlone(kernel, pid);
      }
      var exited := Wait();
      gone := false;
      if exited {
        var probe := NamedProcessGroupExists(pid);
        gone := probe.Missing?;
        if gone {
          NumberGoneIsAbsent(kernel, spawned.value);
        }
      }
    }

    /** `confirm_immutable_evidence_for_read` and the strict read of the receipt against the expected identity. */
    method ReadLaunchReceipt(expected: Token) returns (r: Option<Receipt>)
      requires Valid()
      modifies this`kernel, this`schedule, this`receipt, this`durable
      ensures Steady() && returned == old(returned)
      ensures r.Some? ==> durable && receipt == r && r.value.bound
      ensures r.Some? ==> r.value.token.pid == expected.pid && r.value.token.pgid == expected.pgid
      ensures r.Some? && expected.ticks.Some? ==> r.value.token.ticks == expected.ticks
      ensures r.Some? ==> old(FaultAt(schedule, 0)).Fine? && old(FaultAt(Rest(schedule, 1), 0)).Fine?
      ensures old(Smooth(schedule, 2) && receipt.Some? && receipt.value == Receipt(true, expected)) ==> r == old(receipt)
    {
      Shorter(schedule, 1);
      var fault := Pause();
      if !fault.Fine? {
        return None;
      }
      durable := durable || receipt.Some?;
      fault := Pause();
      if !fault.Fine? || receipt.None? {
        return None;
      }
      var document := receipt.value;
      if || !document.bound || document.token.pid != expected.pid || document.token.pgid != expected.pgid
         || (expected.ticks.Some? && document.token.ticks != expected.ticks) || !durable {
        return None;
      }
      r := Some(document);
    }

    /** The process runs, and `n` operations from now its receipt appears. */
    ghost predicate AboutToArrive(n: nat, doc: Receipt)
      reads this
    {
      !returned && Lives(kernel, pid) && Arrives(schedule, n, doc, pid)
    }

    /** The receipt that names the new process appears within the deadline. */
    ghost predicate Coming(observed: Option<nat>, patience: nat)
      reads this
    {
      && receipt.None? && !returned && Lives(kernel, pid)
      && ArrivesWithin(schedule, 2 * patience, Receipt(true, Token(pid, pid, observed)), pid)
    }

    /** One look for the exit of the process, in the meantime. */
    method PollFor(ghost doc: Receipt, ghost n: nat) returns (exited: bool)
      requires Valid() && spawned.Some?
      modifies this`kernel, this`schedule, this`receipt, this`returned
      ensures Steady() && durable == old(durable) && exited == returned
      ensures old(receipt.None? && AboutToArrive(n, doc)) ==> !exited
      ensures old(receipt.None? && AboutToArrive(n, doc)) ==>
                if n == 0 then receipt == Some(doc) && Smooth(schedule, 3) else receipt.None? && AboutToArrive(n - 1, doc)
    {
      exited := Poll();
    }

    /** One look for the receipt. */
    method AwaitTick(ghost doc: Receipt, ghost n: nat)
      requires Valid() && spawned.Some?
      modifies this`kernel, this`schedule, this`receipt
      ensures Steady() && durable == old(durable) && returned == old(returned)
      ensures old(receipt.None? && AboutToArrive(n, doc)) ==>
                if n == 0 then receipt == Some(doc) && Smooth(schedule, 2) else receipt.None? && AboutToArrive(n - 1, doc)
      ensures old(receipt == Some(doc) && Smooth(schedule, 3)) ==> receipt == Some(doc) && Smooth(schedule, 2)
    {
      if AboutToArrive(n, doc) {
        LaterLives(kernel, schedule[0].events, spawned.value);
        Shorter(schedule[1..], 2);
      }
      var fault := Pause();
    }

    /** The polling loop of `launch_prepared_attempt` and the authentication of what it finds; `patience` is
        the number of polls the deadline allows. */
    method AwaitReceipt(observed: Option<nat>, patience: nat) returns (r: Option<Receipt>)
      requires Valid() && spawned.Some?
      modifies this`kernel, this`schedule, this`receipt, this`durable, this`returned
      ensures Steady()
      ensures r.Some? ==> durable && receipt == r && r.value == Receipt(true, Token(pid, pid, observed))
      ensures old(Coming(observed, patience)) ==> r.Some?
    {
      var found := PollUntil(patience, Receipt(true, Token(pid, pid, observed)), Coming(observed, patience));
      r := None;
      if found {
        r := ReadLaunchReceipt(Token(pid, pid, observed));
        if r.Some? && r.value.token.ticks != observed {
          r := None;
        }
      }
    }

    /** One round of the loop; the last one ends it. */
    method PollOnce(ghost doc: Receipt, ghost n: nat, last: bool) returns (stop: bool)
      requires Valid() && spawned.Some?
      modifies this`kernel, this`schedule, this`receipt, this`returned
      ensures Steady() && durable == old(durable) && stop == (last || returned)
      ensures old(receipt.None? && n > 0 && AboutToArrive(n - 1, doc)) && !last ==> !stop
      ensures old(receipt.None? && n > 0 && AboutToArrive(n - 1, doc)) && !last ==>
                if n <= 2 then receipt == Some(doc) && Smooth(schedule, 2) else receipt.None? && AboutToArrive(n - 3, doc)
    {
      var exited := PollFor(doc, if n > 0 then n - 1 else 0);
      stop := exited || last;
      if !stop {
        AwaitTick(doc, if n > 1 then n - 2 else 0);
      }
    }

    /** Poll until there is a receipt, the process has exited or the deadline has passed. */
    method PollUntil(patience: nat, ghost doc: Receipt, ghost coming: bool) returns (found: bool)
      requires Valid() && spawned.Some?
      requires coming ==> receipt.None? && !returned && Lives(kernel, pid) && ArrivesWithin(schedule, 2 * patience, doc, pid)
      modifies this`kernel, this`schedule, this`receipt, this`returned
      ensures Steady() && durable == old(durable) && (found ==> receipt.Some?)
      ensures coming ==> found && receipt == Some(doc) && Smooth(schedule, 2)
    {
      ghost var n: nat := 0;
      if coming {
        n :| n <= 2 * patience && Arrives(schedule, n, doc, pid);
      }
      var left := patience;
      AwaitTick(doc, n);
      while receipt.None?
        invariant Steady() && durable == old(durable)
        invariant coming && receipt.None? ==> 0 < n <= 2 * left && AboutToArrive(n - 1, doc)
        invariant coming && receipt.Some? ==> receipt == Some(doc) && Smooth(schedule, 2)
        decreases left
      {
        var stop := PollOnce(doc, n, left == 0);
        if stop {
          return false;
        }
        left, n := left - 1, if n > 1 then n - 2 else 0;
      }
      found := true;
    }

    /** What an outcome promises. */
    ghost predicate Honest(r: Outcome)
      reads this
    {
      match r
      case Launched(token) =>
        && spawned.Some? && Names(token) && (linux ==> token.ticks.Some?)
        && durable && receipt == Some(Receipt(true, token))
      case Refused => spawned.Some? ==> Absent(kernel, spawned.value)
      case Uncertain(named) => if spawned.Some? then named.Some? && Names(named.value) else named.None?
    }

    /** `launch_prepared_attempt`; `newPid` and `newTicks` are what the kernel hands out. */
    method LaunchPreparedAttempt(payloadUnchanged: bool, exitReceipt: bool, newPid: Pid, newTicks: nat, patience: nat) returns (r: Outcome)
      requires Valid() && spawned.None? && !returned
      modifies this
      ensures Valid() && Honest(r) && OnlyKilledOurs(old(sent))
      ensures r.Launched? ==> sent == old(sent) && old(receipt).None?
      ensures old(receipt).Some? ==> spawned.None?
      // a changed payload, or a segment that has already ended, is refused before anything is done
      ensures !payloadUnchanged || exitReceipt ==> r.Refused? && spawned.None? && sent == old(sent) && kernel == old(kernel)
      // the executor is spawned exactly if nothing is in the way
      ensures spawned.Some? <==> payloadUnchanged && !exitReceipt && old(MaySpawn(newPid, newTicks))
      ensures spawned.Some? ==> spawned.value.pid == newPid && spawned.value.ticks == newTicks
      ensures r == Uncertain(None) <==> payloadUnchanged && !exitReceipt && !old(FaultAt(schedule, 0)).Fine?
      // ... and if its receipt then appears in time and is read, it is launched
      ensures spawned.Some? && old(Announced(newPid, newTicks, patience)) ==> r.Launched?
    {
      if !payloadUnchanged || exitReceipt {
        return Refused;
      }
      var obstacle := Preflight();
      if obstacle.Some? {
        return obstacle.value;
      } else if !Free(kernel, newPid, newTicks) {
        return Refused;
      }
      StartExecutor(newPid, newTicks);
      r := Settle(patience);
    }

    /** Everything before the spawn: the launch receipt is confirmed, must be absent, and the log is opened. */
    method Preflight() returns (obstacle: Option<Outcome>)
      requires Valid() && spawned.None? && !returned
      modifies this`kernel, this`schedule, this`receipt, this`durable
      ensures Steady() && returned == old(returned)
      ensures obstacle == if !old(FaultAt(schedule, 0)).Fine? then Some(Uncertain(None))
                          else if old(ReceiptAfter(receipt, schedule, 2)).Some? || !old(FaultAt(schedule, 2)).Fine? then Some(Refused)
                          else None
      ensures obstacle.None? ==> kernel == old(After(kernel, schedule, 3)) && schedule == old(Rest(schedule, 3))
      ensures obstacle.None? ==> receipt == old(ReceiptAfter(receipt, schedule, 3)) && !durable
      ensures old(FaultAt(schedule, 0)).Fine? && old(ReceiptAfter(receipt, schedule, 1)).Some? ==> durable
    {
      var fault := Pause();
      if !fault.Fine? {
        return Some(Uncertain(None));
      }
      durable := durable || receipt.Some?;
      ghost var k1, s1, r1 := kernel, schedule, receipt;
      assert old(After(kernel, schedule, 3)) == After(k1, s1, 2) && old(Rest(schedule, 3)) == Rest(s1, 2);
      assert old(ReceiptAfter(receipt, schedule, 2)) == ReceiptAfter(r1, s1, 1) && old(ReceiptAfter(receipt, schedule, 3)) == ReceiptAfter(r1, s1, 2);
      obstacle := LastLook();
    }

    method LastLook() returns (obstacle: Option<Outcome>)
      requires Valid() && spawned.None? && !returned
      modifies this`kernel, this`schedule, this`receipt
      ensures Steady() && returned == old(returned) && durable == old(durable)
      ensures obstacle == if old(ReceiptAfter(receipt, schedule, 1)).Some? || !old(FaultAt(schedule, 1)).Fine? then Some(Refused) else None
      ensures obstacle.None? ==> kernel == old(After(kernel, schedule, 2)) && schedule == old(Rest(schedule, 2))
      ensures obstacle.None? ==> receipt == old(ReceiptAfter(receipt, schedule, 2))
    {
      var fault := Pause();
      if receipt.Some? {
        return Some(Refused);
      }
      ghost var k1, s1, r1 := kernel, schedule, receipt;
      assert old(After(kernel, schedule, 2)) == After(k1, s1, 1) && old(Rest(schedule, 2)) == Rest(s1, 1);
      assert old(ReceiptAfter(receipt, schedule, 2)) == ReceiptAfter(r1, s1, 1);
      fault := Pause();
      assert After(k1, s1, 1) == kernel && Rest(s1, 1) == schedule && ReceiptAfter(r1, s1, 1) == receipt;
      obstacle := if fault.Fine? then None else Some(Refused);
    }

    /** The three operations before the spawn come off, no receipt appears, and the numbers are free. */
    ghost predicate MaySpawn(newPid: Pid, newTicks: nat)
      reads this
    {
      && FaultAt(schedule, 0).Fine? && FaultAt(schedule, 2).Fine?
      && ReceiptAfter(receipt, schedule, 2).None? && Free(After(kernel, schedule, 3), newPid, newTicks)
    }

    /** Its start time is read, and its receipt comes in time. */
    ghost predicate Announced(newPid: Pid, newTicks: nat, patience: nat)
      reads this
    {
      var rest := Rest(schedule, 3);
      && ReceiptAfter(receipt, schedule, 3).None?
      && rest != [] && rest[0].fault.Fine? && rest[0].published.None? && Leaves(rest[0].events, newPid)
      && ArrivesWithin(rest[1..], 2 * patience, Receipt(true, Token(newPid, newPid, if linux then Some(newTicks) else None)), newPid)
    }

    method StartExecutor(newPid: Pid, newTicks: nat)
      requires Valid() && spawned.None? && !returned && Free(kernel, newPid, newTicks)
      modifies this`kernel, this`spawned, this`pid
      ensures Valid() && spawned == Some(Identity(newPid, newTicks, old(kernel.births)))
      ensures pid == newPid && kernel == Spawn(old(kernel), newPid, newTicks)
    {
      SpawnMakesIdentity(kernel, newPid, newTicks);
      spawned := Some(Identity(newPid, newTicks, kernel.births));
      kernel := Spawn(kernel, newPid, newTicks);
      pid := newPid;
    }

    /** Everything after the spawn. */
    method Settle(patience: nat) returns (r: Outcome)
      requires Valid() && spawned.Some? && !returned
      modifies this`kernel, this`schedule, this`receipt, this`durable, this`sent, this`returned
      ensures Steady() && Honest(r) && OnlyKilledOurs(old(sent))
      ensures r.Launched? ==> sent == old(sent)
      ensures r != Uncertain(None)
      ensures old(schedule != [] && receipt.None? && Lives(kernel, pid) && AnnouncedNow(spawned.value.ticks, patience)) ==> r.Launched?
    {
      ghost var coming := schedule != [] && receipt.None? && Lives(kernel, pid) && AnnouncedNow(spawned.value.ticks, patience);
      if coming {
        LaterLives(kernel, schedule[0].events, spawned.value);
        assert Smooth(schedule, 1);
      }
      var observed := StartTicks(pid);
      if coming {
        TokenIdentifies(kernel, spawned.value);
      }
      if linux && observed.None? {
        r := GiveUp(None);
        return;
      }
      assert Names(Token(pid, pid, observed));
      var found := AwaitReceipt(observed, patience);
      if found.None? {
        r := GiveUp(observed);
      } else {
        r := Launched(found.value.token);
      }
    }

    ghost predicate AnnouncedNow(ticks: nat, patience: nat)
      requires schedule != []
      reads this
    {
      && schedule[0].fault.Fine? && schedule[0].published.None? && Leaves(schedule[0].events, pid)
      && ArrivesWithin(schedule[1..], 2 * patience, Receipt(true, Token(pid, pid, if linux then Some(ticks) else None)), pid)
    }

    /** Stop what was spawned; the launch is refused, or uncertain with the process named. */
    method GiveUp(ticks: Option<nat>) returns (r: Outcome)
      requires Valid() && spawned.Some? && Names(Token(pid, pid, ticks))
      modifies this`kernel, this`schedule, this`receipt, this`sent, this`returned
      ensures Steady() && durable == old(durable) && Honest(r) && !r.Launched? && OnlyKilledOurs(old(sent))
      ensures old(linux && !returned && Obeys(schedule) && Sole(kernel, pid)) && ticks.Some? ==> r.Refused?
    {
      var stopped := StopFailedLaunchGroup(ticks);
      r := if stopped then Refused else Uncertain(Some(Token(pid, pid, ticks)));
    }

    /** `stop_launched_attempt`. */
    method StopLaunchedAttempt(token: Token) returns (r: Outcome)
      requires Valid() && Honest(Launched(token))
      modifies this`kernel, this`schedule, this`receipt, this`sent, this`returned
      ensures Steady() && OnlyKilledOurs(old(sent)) && !r.Launched? && Honest(r)
      ensures old(linux && !returned && Obeys(schedule) && Sole(kernel, pid)) ==> r.Refused?
    {
      r := GiveUp(token.ticks);
    }
  }

  /** A group proved absent stays absent, whatever happens later: an ordinary launch error remains true. */
  lemma RefusalStaysTrue(k: Kernel, events: seq<Event>, id: Identity)
    requires Sane(k) && Known(k, id) && Absent(k, id)
    ensures Absent(Later(k, events), id)
  {
    LaterEvolves(k, events);
    assert Lasts(k, Later(k, events), id);
  }

  lemma LaterStep(k: Kernel, e: Event, rest: seq<Event>)
    requires Possible(k, e)
    ensures Later(k, [e] + rest) == Later(Happen(k, e), rest)
  {
    assert ([e] + rest)[1..] == rest;
  }

  /** The last member of a group, if it is not a child of the launcher, can exit and be reaped, and its number
      passed on to the leader of another group. */
  lemma NumberChangesHands(k: Kernel, id: Identity, keeper: Pid, ticks: nat)
    requires Sane(k) && Founder(k, id) && Runs(k, id) && !k.table[id.pid].ours && id.pid > 0
    requires forall q <- k.table :: k.table[q].pgid == id.pid ==> q == id.pid
    requires keeper in k.table && keeper != id.pid && !k.table[keeper].zombie && (id.pid, ticks) !in k.stamps
    ensures var t := Later(k, [Exit(id.pid)] + ([Reap(id.pid)] + ([Fork(keeper, id.pid, ticks)] + ([Regroup(id.pid)] + []))));
      && id.pid in t.table && t.table[id.pid].pgid == id.pid
      && t.table[id.pid].group == k.births && t.table[id.pid].birth == k.births && k.births != id.birth
  {
    var leave := [Regroup(id.pid)] + [];
    var fork := [Fork(keeper, id.pid, ticks)] + leave;
    var reap := [Reap(id.pid)] + fork;
    var k1 := Happen(k, Exit(id.pid));
    LaterStep(k, Exit(id.pid), reap);
    var k2 := Happen(k1, Reap(id.pid));
    LaterStep(k1, Reap(id.pid), fork);
    assert keeper in k2.table && k2.table[keeper] == k.table[keeper];
    var k3 := Happen(k2, Fork(keeper, id.pid, ticks));
    LaterStep(k2, Fork(keeper, id.pid, ticks), leave);
    LaterStep(k3, Regroup(id.pid), []);
  }
}
