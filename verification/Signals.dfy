/**
 Graceful signals around the launch of the scientific child.

 The executor's handler runs between any two steps of the main program and of other handler
 calls.  Each signal number is to be broadcast to the scientific group at most once, and none
 may be lost in the windows around the creation of the child.
 */
module Signals {
  import opened FileSystem

  datatype Signal = Interrupt | Terminate

  /** A running call of the handler `forward`, by the step it takes next. */
  datatype At = Test | Add | Name | Branch | Ignore | Kill | Restore

  /** The handler calls in progress, the innermost first. */
  datatype Calls = Idle | Call(signal: Signal, at: At, below: Calls)

  datatype Main =
    | Publishing                  // handlers installed, launch receipt not yet published
    | Spawning                    // inside subprocess.Popen
    | Spawned                     // the child exists, the variable is not yet assigned
    | Replay(i: nat)              // at the head of the replay loop
    | ReplayIgnore(i: nat)
    | ReplayKill(i: nat)
    | ReplayRestore(i: nat)
    | Clearing                    // pending_signals.clear()
    | Waiting                     // child.wait() and the drain loop
    | Leaving                     // previous handlers restored

  /** `broadcasts` is the history of group broadcasts; `skipped` holds the pending signals the
      replay loop dropped because the child had already exited; `reentered` holds the signals of
      which a delivery was handled between the membership test and the insertion of another one. */
  datatype State = State(
    main: Main,
    hasChild: bool,
    alive: bool,
    accepted: set<Signal>,
    received: seq<Signal>,
    pending: seq<Signal>,
    ignored: set<Signal>,
    calls: Calls,
    broadcasts: seq<Signal>,
    skipped: seq<Signal>,
    reentered: set<Signal>)

  datatype Action =
    | Arrive(signal: Signal)
    | HandlerStep
    | MainStep(ok: bool)
    | ChildExits

  predicate Enabled(s: State, a: Action) {
    match a
    case Arrive(signal) =>
      !s.main.Leaving? && signal !in s.ignored
    case HandlerStep => s.calls.Call?
    case MainStep(_) => s.calls.Idle? && !s.main.Leaving? && (s.main.Waiting? ==> !s.alive)
    case ChildExits => s.alive
  }

  /** Handler calls past the membership test that have still to insert `x`. */
  function Adding(calls: Calls, x: Signal): nat {
    if calls.Idle? then 0
    else Adding(calls.below, x) + if calls.signal == x && calls.at.Add? then 1 else 0
  }

  function Goto(s: State, at: At): State
    requires s.calls.Call?
  {
    s.(calls := s.calls.(at := at))
  }

  function Pop(s: State): State
    requires s.calls.Call?
  {
    s.(calls := s.calls.below)
  }

  /** One step of `forward` and `signal_scientific_group_once`. */
  function Handle(s: State): State
    requires s.calls.Call?
  {
    var signal := s.calls.signal;
    match s.calls.at
    case Test => if signal in s.accepted then Pop(s) else Goto(s, Add)
    case Add => Goto(s, Name).(accepted := s.accepted + {signal})
    case Name => Goto(s, Branch).(received := s.received + [signal])
    case Branch => if s.hasChild then Goto(s, Ignore) else Pop(s).(pending := s.pending + [signal])
    case Ignore => Goto(s, Kill).(ignored := s.ignored + {signal})
    case Kill => Goto(s, Restore).(broadcasts := s.broadcasts + [signal])
    case Restore => Pop(s).(ignored := s.ignored - {signal})
  }

  /** One step of the main program; `ok` is what publication and Popen come to. */
  function Advance(s: State, ok: bool): State
    requires !s.main.Leaving?
  {
    match s.main
    case Publishing => s.(main := if ok then Spawning else Leaving)
    case Spawning => if ok then s.(main := Spawned, alive := true) else s.(main := Leaving)
    case Spawned => s.(main := Replay(0), hasChild := true)
    case Replay(i) =>
      if i >= |s.pending| then s.(main := Clearing)
      else if !s.alive then s.(main := Clearing, skipped := s.pending[i..])
      else s.(main := ReplayIgnore(i))
    case ReplayIgnore(i) =>
      if i < |s.pending| then s.(main := ReplayKill(i), ignored := s.ignored + {s.pending[i]}) else s
    case ReplayKill(i) =>
      if i < |s.pending| then s.(main := ReplayRestore(i), broadcasts := s.broadcasts + [s.pending[i]]) else s
    case ReplayRestore(i) =>
      if i < |s.pending| then s.(main := Replay(i + 1), ignored := s.ignored - {s.pending[i]}) else s
    case Clearing => s.(main := Waiting, pending := [])
    case Waiting => s.(main := Leaving)
  }

  function Next(s: State, a: Action): State
    requires Enabled(s, a)
  {
    match a
    case Arrive(signal) =>
      s.(calls := Call(signal, Test, s.calls),
         reentered := if Adding(s.calls, signal) > 0 then s.reentered + {signal} else s.reentered)
    case HandlerStep => Handle(s)
    case MainStep(ok) => Advance(s, ok)
    case ChildExits => s.(alive := false)
  }

  const START: State := State(Publishing, false, false, {}, [], [], {}, Idle, [], [], {})

  function Exec(s: State, acts: seq<Action>): Option<State>
  {
    if acts == [] then Some(s)
    else
      var mid := Exec(s, acts[..|acts| - 1]);
      if mid.Some? && Enabled(mid.value, acts[|acts| - 1]) then Some(Next(mid.value, acts[|acts| - 1])) else None
  }

  // ---------------------------------------------------------------- a conservation law

  function Count(q: seq<Signal>, x: Signal): nat {
    multiset(q)[x]
  }

  predicate Underway(at: At) {
    at.Name? || at.Branch? || at.Ignore? || at.Kill?
  }

  /** Handler calls that have accepted `x` and have still to park or broadcast it. */
  function Due(calls: Calls, x: Signal): nat {
    if calls.Idle? then 0
    else Due(calls.below, x) + if calls.signal == x && Underway(calls.at) then 1 else 0
  }

  /** Handler calls that have accepted `x` and have still to record its name. */
  function Unnamed(calls: Calls, x: Signal): nat {
    if calls.Idle? then 0
    else Unnamed(calls.below, x) + if calls.signal == x && calls.at.Name? then 1 else 0
  }

  /** No call for `x` runs on top of another one that is about to insert it. */
  predicate Apart(calls: Calls, x: Signal) {
    calls.Idle? || (Apart(calls.below, x) && (calls.signal == x ==> Adding(calls.below, x) == 0))
  }

  /** How far the replay loop has come through the parked signals. */
  function Replayed(main: Main, pending: seq<Signal>): nat {
    match main
    case Replay(i) => i
    case ReplayIgnore(i) => i
    case ReplayKill(i) => i
    case ReplayRestore(i) => i + 1
    case Clearing => |pending|
    case _ => 0
  }

  /** What the replay loop has still to take up. */
  function Parked(main: Main, pending: seq<Signal>): seq<Signal> {
    if Replayed(main, pending) <= |pending| then pending[Replayed(main, pending)..] else []
  }

  ghost predicate IndexOk(s: State) {
    && Replayed(s.main, s.pending) <= |s.pending|
    && (s.main.ReplayIgnore? || s.main.ReplayKill? ==> Replayed(s.main, s.pending) < |s.pending|)
    && (s.main.Waiting? ==> s.pending == [])
    && (s.main.Leaving? && s.hasChild ==> s.pending == [])
  }

  predicate InReplay(m: Main) {
    m.Replay? || m.ReplayIgnore? || m.ReplayKill? || m.ReplayRestore? || m.Clearing? || m.Waiting?
  }

  ghost predicate Fresh(s: State, x: Signal) {
    Apart(s.calls, x) && (Adding(s.calls, x) > 0 ==> x !in s.accepted)
  }

  /** An accepted signal is in exactly one place: on its way through a handler call, parked for the
      replay, broadcast, or dropped for want of a live child; any other signal is nowhere. */
  ghost predicate Conserved(s: State, x: Signal)
  {
    var one := if x in s.accepted then 1 else 0;
    && Due(s.calls, x) + Count(Parked(s.main, s.pending), x) + Count(s.broadcasts, x) + Count(s.skipped, x) == one
    && Count(s.received, x) + Unnamed(s.calls, x) == one
  }

  ghost predicate Shaped(s: State) {
    && IndexOk(s)
    && (InReplay(s.main) ==> s.hasChild)
    && (s.main.Publishing? || s.main.Spawning? || s.main.Spawned? ==> !s.hasChild)
    && (s.skipped != [] ==> !s.alive && (s.main.Clearing? || s.main.Waiting? || s.main.Leaving?))
  }

  ghost predicate Inv(s: State) {
    Shaped(s) && forall x :: x !in s.reentered ==> Fresh(s, x) && Conserved(s, x)
  }

  lemma CountAppend(q: seq<Signal>, y: Signal, x: Signal)
    ensures Count(q + [y], x) == Count(q, x) + if x == y then 1 else 0
  {}

  lemma CountFirst(q: seq<Signal>, x: Signal)
    requires q != []
    ensures Count(q, x) == Count(q[1..], x) + if q[0] == x then 1 else 0
  {
    assert q == [q[0]] + q[1..];
  }

  lemma ParkedAppend(main: Main, pending: seq<Signal>, y: Signal)
    requires Replayed(main, pending) <= |pending| && !main.Clearing?
    ensures Parked(main, pending + [y]) == Parked(main, pending) + [y]
  {}

  lemma ParkedAtTheEnd(main: Main, pending: seq<Signal>)
    requires Replayed(main, pending) == |pending|
    ensures Parked(main, pending) == [] && Parked(Clearing, pending) == [] && Parked(Waiting, []) == []
  {}

  lemma ArriveKeepsInv(s: State, a: Action)
    requires Inv(s) && a.Arrive? && Enabled(s, a)
    ensures Inv(Next(s, a))
  {
    var t := Next(s, a);
    forall x | x !in t.reentered ensures Fresh(t, x) && Conserved(t, x) {
      assert Fresh(s, x) && Conserved(s, x);
    }
  }

  /** The handler's steps keep the balance of every signal: testing whether it was accepted, ... */
  lemma {:induction false} TestKeepsBalance(s: State, x: Signal)
    requires IndexOk(s) && Conserved(s, x) && s.calls.Call? && s.calls.at.Test?
    ensures Conserved(Handle(s), x)
  {
    var t := Handle(s);
    assert Parked(t.main, t.pending) == Parked(s.main, s.pending) && t.broadcasts == s.broadcasts && t.skipped == s.skipped;
    assert Due(t.calls, x) == Due(s.calls, x) && Unnamed(t.calls, x) == Unnamed(s.calls, x);
  }

  /** ... accepting it, ... */
  lemma {:induction false} AddKeepsBalance(s: State, x: Signal)
    requires IndexOk(s) && Conserved(s, x) && Fresh(s, x) && s.calls.Call? && s.calls.at.Add?
    ensures Conserved(Handle(s), x)
  {}

  /** ... recording its name, ... */
  lemma {:induction false} NamingKeepsBalance(s: State, x: Signal)
    requires IndexOk(s) && Conserved(s, x) && s.calls.Call? && s.calls.at.Name?
    ensures Conserved(Handle(s), x)
  {
    var t := Handle(s);
    CountAppend(s.received, s.calls.signal, x);
    assert Due(t.calls, x) == Due(s.calls, x);
  }

  /** ... parking it for the replay, ... */
  lemma {:induction false} ParkingKeepsBalance(s: State, x: Signal)
    requires IndexOk(s) && Conserved(s, x) && s.calls.Call? && s.calls.at.Branch? && !s.hasChild && !s.main.Clearing?
    ensures Conserved(Handle(s), x)
  {
    var t := Handle(s);
    ParkedAppend(s.main, s.pending, s.calls.signal);
    CountAppend(Parked(s.main, s.pending), s.calls.signal, x);
    assert Due(t.calls, x) + (if s.calls.signal == x then 1 else 0) == Due(s.calls, x);
    assert Unnamed(t.calls, x) == Unnamed(s.calls, x);
  }

  /** ... or turning to the live child, ... */
  lemma {:induction false} TurningKeepsBalance(s: State, x: Signal)
    requires IndexOk(s) && Conserved(s, x) && s.calls.Call? && s.calls.at.Branch? && s.hasChild
    ensures Conserved(Handle(s), x)
  {}

  /** ... suppressing self-delivery, ... */
  lemma {:induction false} IgnoreKeepsBalance(s: State, x: Signal)
    requires IndexOk(s) && Conserved(s, x) && s.calls.Call? && s.calls.at.Ignore?
    ensures Conserved(Handle(s), x)
  {}

  /** ... broadcasting it, ... */
  lemma {:induction false} KillKeepsBalance(s: State, x: Signal)
    requires IndexOk(s) && Conserved(s, x) && s.calls.Call? && s.calls.at.Kill?
    ensures Conserved(Handle(s), x)
  {
    var t := Handle(s);
    CountAppend(s.broadcasts, s.calls.signal, x);
    assert Parked(t.main, t.pending) == Parked(s.main, s.pending) && t.skipped == s.skipped && t.accepted == s.accepted;
    assert Due(t.calls, x) + (if s.calls.signal == x then 1 else 0) == Due(s.calls, x);
  }

  /** ... and installing the handler again. */
  lemma {:induction false} RestoreKeepsBalance(s: State, x: Signal)
    requires IndexOk(s) && Conserved(s, x) && s.calls.Call? && s.calls.at.Restore?
    ensures Conserved(Handle(s), x)
  {}

  lemma {:induction false} HandlerKeepsBalance(s: State, x: Signal)
    requires Inv(s) && s.calls.Call? && x !in s.reentered
    ensures Conserved(Handle(s), x)
  {
    assert Fresh(s, x) && Conserved(s, x);
    match s.calls.at
    case Test => TestKeepsBalance(s, x);
    case Add => AddKeepsBalance(s, x);
    case Name => NamingKeepsBalance(s, x);
    case Branch => if s.hasChild { TurningKeepsBalance(s, x); } else { ParkingKeepsBalance(s, x); }
    case Ignore => IgnoreKeepsBalance(s, x);
    case Kill => KillKeepsBalance(s, x);
    case Restore => RestoreKeepsBalance(s, x);
  }

  lemma {:induction false} HandlerKeepsFresh(s: State, x: Signal)
    requires s.calls.Call? && Fresh(s, x)
    ensures Fresh(Handle(s), x)
  {
    ApartAddsOnce(s.calls.below, x);
  }

  lemma ApartAddsOnce(calls: Calls, x: Signal)
    requires Apart(calls, x)
    ensures Adding(calls, x) <= 1
  {}

  lemma HandlerStepKeepsInv(s: State)
    requires Inv(s) && s.calls.Call?
    ensures Inv(Handle(s))
  {
    var t := Handle(s);
    forall x | x !in t.reentered ensures Fresh(t, x) && Conserved(t, x) {
      HandlerKeepsFresh(s, x);
      HandlerKeepsBalance(s, x);
    }
  }

  /** So do the steps of the main program: before the replay, ... */
  lemma {:induction false} LaunchKeepsBalance(s: State, ok: bool, x: Signal)
    requires IndexOk(s) && Conserved(s, x) && (s.main.Publishing? || s.main.Spawning? || s.main.Spawned? || s.main.Waiting?)
    ensures Conserved(Advance(s, ok), x)
  {}

  /** ... at its head with nothing left, ... */
  lemma {:induction false} EndKeepsBalance(s: State, ok: bool, x: Signal)
    requires IndexOk(s) && Conserved(s, x) && s.main.Replay? && s.main.i == |s.pending|
    ensures Conserved(Advance(s, ok), x)
  {
    ParkedAtTheEnd(s.main, s.pending);
  }

  /** ... with the child gone, ... */
  lemma {:induction false} DropKeepsBalance(s: State, ok: bool, x: Signal)
    requires IndexOk(s) && Conserved(s, x) && s.main.Replay? && s.main.i < |s.pending| && !s.alive && s.skipped == []
    ensures Conserved(Advance(s, ok), x)
  {
    ParkedAtTheEnd(Clearing, s.pending);
    var t := Advance(s, ok);
    assert t.skipped == Parked(s.main, s.pending) && Parked(t.main, t.pending) == [];
  }

  /** ... with a live child, ... */
  lemma {:induction false} TakeKeepsBalance(s: State, ok: bool, x: Signal)
    requires IndexOk(s) && Conserved(s, x) && s.main.Replay? && s.main.i < |s.pending| && s.alive
    ensures Conserved(Advance(s, ok), x)
  {}

  /** ... in its body around the broadcast, ... */
  lemma {:induction false} ReplayKeepsBalance(s: State, ok: bool, x: Signal)
    requires IndexOk(s) && Conserved(s, x) && (s.main.ReplayIgnore? || s.main.ReplayRestore?)
    ensures Conserved(Advance(s, ok), x)
  {
    var t := Advance(s, ok);
    assert Parked(t.main, t.pending) == Parked(s.main, s.pending);
  }

  /** ... at the broadcast, ... */
  lemma {:induction false} BroadcastKeepsBalance(s: State, ok: bool, x: Signal)
    requires IndexOk(s) && Conserved(s, x) && s.main.ReplayKill?
    ensures Conserved(Advance(s, ok), x)
  {
    var i, t := s.main.i, Advance(s, ok);
    CountFirst(s.pending[i..], x);
    assert Parked(t.main, t.pending) == s.pending[i..][1..];
    CountAppend(s.broadcasts, s.pending[i], x);
  }

  /** ... and after it. */
  lemma {:induction false} ClearingKeepsBalance(s: State, ok: bool, x: Signal)
    requires IndexOk(s) && Conserved(s, x) && s.main.Clearing?
    ensures Conserved(Advance(s, ok), x)
  {
    ParkedAtTheEnd(s.main, s.pending);
  }

  lemma {:induction false} MainKeepsBalance(s: State, ok: bool, x: Signal)
    requires Inv(s) && Enabled(s, MainStep(ok)) && x !in s.reentered
    ensures var t := Advance(s, ok); Conserved(t, x)
  {
    assert Conserved(s, x);
    if s.main.Replay? {
      if s.main.i == |s.pending| {
        EndKeepsBalance(s, ok, x);
      } else if s.alive {
        TakeKeepsBalance(s, ok, x);
      } else {
        DropKeepsBalance(s, ok, x);
      }
    } else if s.main.ReplayIgnore? || s.main.ReplayRestore? {
      ReplayKeepsBalance(s, ok, x);
    } else if s.main.ReplayKill? {
      BroadcastKeepsBalance(s, ok, x);
    } else if s.main.Clearing? {
      ClearingKeepsBalance(s, ok, x);
    } else {
      LaunchKeepsBalance(s, ok, x);
    }
  }

  lemma MainKeepsShape(s: State, ok: bool)
    requires Shaped(s) && Enabled(s, MainStep(ok))
    ensures Shaped(Advance(s, ok))
  {}

  lemma MainStepKeepsInv(s: State, ok: bool)
    requires Inv(s) && Enabled(s, MainStep(ok))
    ensures Inv(Advance(s, ok))
  {
    var t := Advance(s, ok);
    MainKeepsShape(s, ok);
    assert t.calls == s.calls && t.accepted == s.accepted && t.reentered == s.reentered;
    forall x | x !in t.reentered ensures Fresh(t, x) && Conserved(t, x) {
      MainKeepsBalance(s, ok, x);
    }
  }

  lemma StepKeepsInv(s: State, a: Action)
    requires Inv(s) && Enabled(s, a)
    ensures Inv(Next(s, a))
  {
    match a
    case Arrive(_) => ArriveKeepsInv(s, a);
    case HandlerStep => HandlerStepKeepsInv(s);
    case MainStep(ok) => MainStepKeepsInv(s, ok);
    case ChildExits =>
      forall x | x !in s.reentered ensures Fresh(Next(s, a), x) && Conserved(Next(s, a), x) {
        assert Fresh(s, x) && Conserved(s, x);
      }
  }

  lemma {:induction false} RunKeepsInv(acts: seq<Action>, s: State)
    requires Exec(START, acts) == Some(s)
    ensures Inv(s)
    decreases |acts|
  {
    if acts != [] {
      var mid := Exec(START, acts[..|acts| - 1]).value;
      RunKeepsInv(acts[..|acts| - 1], mid);
      StepKeepsInv(mid, acts[|acts| - 1]);
    }
  }

  // ---------------------------------------------------------------- what the scientific group sees

  /** In every interleaving each signal is broadcast at most once, only after it was accepted, and no
      signal name is ever recorded twice - but for a signal of which the handler was reentered between
      its test and its insertion. */
  lemma EachSignalAtMostOnce(acts: seq<Action>, s: State, x: Signal)
    requires Exec(START, acts) == Some(s) && x !in s.reentered
    ensures Count(s.broadcasts, x) <= 1 && Count(s.received, x) <= 1
    ensures x in s.broadcasts || x in s.received ==> x in s.accepted
  {
    RunKeepsInv(acts, s);
    assert Conserved(s, x);
    assert x in s.broadcasts ==> x in multiset(s.broadcasts);
    assert x in s.received ==> x in multiset(s.received);
  }

  /** Nothing is lost around the creation of the child: once no handler call is running and the replay is
      over, every accepted signal has been recorded and broadcast, exactly once - unless the replay
      found the child already gone. */
  lemma NoSignalIsLost(acts: seq<Action>, s: State, x: Signal)
    requires Exec(START, acts) == Some(s) && x !in s.reentered
    requires s.calls.Idle? && (s.main.Clearing? || s.main.Waiting? || (s.main.Leaving? && s.hasChild))
    requires x in s.accepted
    ensures Count(s.received, x) == 1
    ensures x !in s.skipped ==> Count(s.broadcasts, x) == 1
    ensures x in s.skipped ==> Count(s.broadcasts, x) == 0 && !s.alive
  {
    RunKeepsInv(acts, s);
    assert Conserved(s, x);
    assert x in s.skipped <==> x in multiset(s.skipped);
    ParkedAtTheEnd(s.main, s.pending);
  }

  // ---------------------------------------------------------------- the handler is not atomic

  /** The innermost call for `x` before its insertion is at its test, over one that is past it. */
  predicate Heading(calls: Calls, x: Signal) {
    if calls.Idle? then false
    else if calls.signal == x && calls.at.Test? then Adding(calls.below, x) > 0
    else if calls.signal == x && calls.at.Add? then false
    else Heading(calls.below, x)
  }

  /** How often the name of `x` has been recorded or is bound to be. */
  function Bound(s: State, x: Signal): nat {
    Count(s.received, x) + Unnamed(s.calls, x) + Adding(s.calls, x)
  }

  ghost predicate Doubling(s: State, x: Signal) {
    && (x in s.accepted ==> Count(s.received, x) + Unnamed(s.calls, x) >= 1)
    && (x in s.reentered ==> Bound(s, x) >= 2 || (x !in s.accepted && Heading(s.calls, x)))
  }

  lemma HeadingAdds(calls: Calls, x: Signal)
    requires Heading(calls, x)
    ensures Adding(calls, x) > 0
  {}

  lemma {:induction false} TestKeepsDoubling(s: State, x: Signal)
    requires Doubling(s, x) && s.calls.Call? && s.calls.at.Test?
    ensures Doubling(Handle(s), x)
  {}

  lemma {:induction false} AddKeepsDoubling(s: State, x: Signal)
    requires Doubling(s, x) && s.calls.Call? && s.calls.at.Add?
    ensures Doubling(Handle(s), x)
  {}

  lemma {:induction false} NamingKeepsDoubling(s: State, x: Signal)
    requires Doubling(s, x) && s.calls.Call? && s.calls.at.Name?
    ensures Doubling(Handle(s), x)
  {
    CountAppend(s.received, s.calls.signal, x);
    assert Handle(s).received == s.received + [s.calls.signal];
    assert Bound(Handle(s), x) == Bound(s, x);
  }

  /** Past the recording of its name, a call counts for nothing. */
  predicate Named(at: At) {
    !at.Test? && !at.Add? && !at.Name?
  }

  lemma {:induction false} NamedCallCountsNothing(signal: Signal, at: At, below: Calls, x: Signal)
    requires Named(at)
    ensures Unnamed(Call(signal, at, below), x) == Unnamed(below, x)
    ensures Adding(Call(signal, at, below), x) == Adding(below, x)
    ensures Heading(Call(signal, at, below), x) == Heading(below, x)
  {}

  lemma {:induction false} DoublingIsInTheCalls(s: State, t: State, x: Signal)
    requires Doubling(s, x) && t.accepted == s.accepted && t.received == s.received && t.reentered == s.reentered
    requires Unnamed(t.calls, x) == Unnamed(s.calls, x) && Adding(t.calls, x) == Adding(s.calls, x)
    requires Heading(t.calls, x) == Heading(s.calls, x)
    ensures Doubling(t, x)
  {}

  lemma {:induction false} RestKeepsDoubling(s: State, x: Signal)
    requires Doubling(s, x) && s.calls.Call? && Named(s.calls.at)
    ensures Doubling(Handle(s), x)
  {
    var Call(signal, at, below) := s.calls;
    RestKeepsRecords(s);
    NamedCallCountsNothing(signal, at, below, x);
    if Handle(s).calls != below {
      NamedCallCountsNothing(signal, Handle(s).calls.at, below, x);
    }
    DoublingIsInTheCalls(s, Handle(s), x);
  }

  lemma RestKeepsRecords(s: State)
    requires s.calls.Call? && Named(s.calls.at)
    ensures var t := Handle(s);
      && t.accepted == s.accepted && t.received == s.received && t.reentered == s.reentered
      && (t.calls == s.calls.below || exists at :: Named(at) && t.calls == Call(s.calls.signal, at, s.calls.below))
  {
    if Handle(s).calls != s.calls.below {
      assert Handle(s).calls == Call(s.calls.signal, Handle(s).calls.at, s.calls.below);
    }
  }

  lemma {:induction false} HandlerKeepsDoubling(s: State, x: Signal)
    requires Doubling(s, x) && s.calls.Call?
    ensures Doubling(Handle(s), x)
  {
    match s.calls.at
    case Test => TestKeepsDoubling(s, x);
    case Add => AddKeepsDoubling(s, x);
    case Name => NamingKeepsDoubling(s, x);
    case _ => RestKeepsDoubling(s, x);
  }

  lemma {:induction false} ArriveKeepsDoubling(s: State, a: Action, x: Signal)
    requires Doubling(s, x) && a.Arrive? && Enabled(s, a)
    ensures Doubling(Next(s, a), x)
  {
    if Heading(s.calls, x) {
      HeadingAdds(s.calls, x);
    }
  }

  lemma {:induction false} RunKeepsDoubling(acts: seq<Action>, s: State, x: Signal)
    requires Exec(START, acts) == Some(s)
    ensures Doubling(s, x)
    decreases |acts|
  {
    if acts != [] {
      var mid := Exec(START, acts[..|acts| - 1]).value;
      RunKeepsDoubling(acts[..|acts| - 1], mid, x);
      match acts[|acts| - 1]
      case Arrive(_) => ArriveKeepsDoubling(mid, acts[|acts| - 1], x);
      case HandlerStep => HandlerKeepsDoubling(mid, x);
      case MainStep(_) =>
      case ChildExits =>
    }
  }

  /** Exactly when the handler keeps its promise: once its calls are over, a signal name has been recorded
      twice if and only if a delivery was handled between the test and the insertion of another. */
  lemma NameRepeatsIffReentered(acts: seq<Action>, s: State, x: Signal)
    requires Exec(START, acts) == Some(s) && s.calls.Idle?
    ensures Count(s.received, x) >= 2 <==> x in s.reentered
  {
    RunKeepsDoubling(acts, s, x);
    if x !in s.reentered {
      EachSignalAtMostOnce(acts, s, x);
    }
  }

  /** `Exec` with the last action split off. */
  lemma ExecSnoc(s: State, acts: seq<Action>, a: Action)
    ensures Exec(s, acts + [a]) ==
      var mid := Exec(s, acts);
      if mid.Some? && Enabled(mid.value, a) then Some(Next(mid.value, a)) else None
  {
    assert (acts + [a])[..|acts|] == acts;
  }

  function LiveChild(): State {
    START.(main := Replay(0), hasChild := true, alive := true)
  }

  lemma LaunchRuns() returns (acts: seq<Action>)
    ensures Exec(START, acts) == Some(LiveChild())
  {
    var step := MainStep(true);
    acts := [];
    ExecSnoc(START, acts, step);
    ExecSnoc(START, acts + [step], step);
    ExecSnoc(START, acts + [step] + [step], step);
    acts := acts + [step] + [step] + [step];
  }

  /** A delivery that is handled up to the test of the handler. */
  lemma DeliveryReachesInsertion(acts: seq<Action>, s: State) returns (more: seq<Action>, t: State)
    requires Exec(START, acts) == Some(s) && Interrupt !in s.accepted && s.ignored == {} && !s.main.Leaving?
    ensures Exec(START, more) == Some(t)
    ensures t.calls == Call(Interrupt, Add, s.calls)
    ensures t == s.(calls := t.calls, reentered := t.reentered)
  {
    ExecSnoc(START, acts, Arrive(Interrupt));
    ExecSnoc(START, acts + [Arrive(Interrupt)], HandlerStep);
    more := acts + [Arrive(Interrupt)] + [HandlerStep];
    t := Handle(Next(s, Arrive(Interrupt)));
  }

  /** The condition is not idle: with a live child such a pair of deliveries broadcasts the signal twice. */
  lemma ReentryBroadcastsTwice() returns (acts: seq<Action>, s: State)
    ensures Exec(START, acts) == Some(s) && s.calls.Idle?
    ensures s.received == [Interrupt, Interrupt] && s.broadcasts == [Interrupt, Interrupt]
  {
    var h0 := LaunchRuns();
    var h1, s1 := DeliveryReachesInsertion(h0, LiveChild());
    var h2, s2 := DeliveryReachesInsertion(h1, s1);
    var h3, s3 := CallRunsThrough(h2, s2);
    acts, s := CallRunsThrough(h3, s3);
  }

  /** An `Interrupt` call about to insert, with a child to signal, ends in one more broadcast. */
  lemma CallRunsThrough(acts: seq<Action>, s: State) returns (more: seq<Action>, t: State)
    requires Exec(START, acts) == Some(s)
    requires s.calls.Call? && s.calls.at.Add? && s.hasChild && s.calls.signal == Interrupt && s.ignored == {}
    ensures Exec(START, more) == Some(t)
    ensures t == s.(calls := s.calls.below, accepted := s.accepted + {Interrupt},
                    received := s.received + [Interrupt], broadcasts := s.broadcasts + [Interrupt])
  {
    more, t := acts, s;
    for n := 0 to 6
      invariant Exec(START, more) == Some(t)
      invariant n == 0 ==> t == s
      invariant n == 1 ==> t == Goto(s, Name).(accepted := s.accepted + {Interrupt})
      invariant n == 2 ==> t == Goto(s, Branch).(accepted := s.accepted + {Interrupt}, received := s.received + [Interrupt])
      invariant n == 3 ==> t == Goto(s, Ignore).(accepted := s.accepted + {Interrupt}, received := s.received + [Interrupt])
      invariant n == 4 ==> t == Goto(s, Kill).(accepted := s.accepted + {Interrupt}, received := s.received + [Interrupt], ignored := {Interrupt})
      invariant n == 5 ==> t == Goto(s, Restore).(accepted := s.accepted + {Interrupt}, received := s.received + [Interrupt],
                                                  ignored := {Interrupt}, broadcasts := s.broadcasts + [Interrupt])
      invariant n == 6 ==> t == s.(calls := s.calls.below, accepted := s.accepted + {Interrupt},
                                   received := s.received + [Interrupt], broadcasts := s.broadcasts + [Interrupt])
    {
      ExecSnoc(START, more, HandlerStep);
      more, t := more + [HandlerStep], Next(t, HandlerStep);
    }
  }
}
