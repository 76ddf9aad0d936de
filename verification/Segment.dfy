/**
 The executor's segment as it is programmed: the handlers, the launch, the replay loop and the wait.
 Every step of the main program and of the handler may be preceded by deliveries, whose handlers are
 themselves interruptible; the schedule says by which.
 */
module Segments {
  import opened FileSystem
  import opened Signals

  datatype Event = Quiet | Signalled(signal: Signal) | Exited

  /** What the deliveries before a step may change, as seen by the code they interrupt. */
  ghost predicate Around(s: State, t: State) {
    && t.main == s.main && t.hasChild == s.hasChild && t.calls == s.calls && t.ignored == s.ignored
    && (s.hasChild ==> t.pending == s.pending)
    && (!s.hasChild ==> t.broadcasts == s.broadcasts)
    && s.accepted <= t.accepted
    && (t.alive ==> s.alive)
  }

  /** What a segment owes its scheduler about one signal. */
  ghost predicate Settled(s: State, x: Signal) {
    && Count(s.received, x) == (if x in s.accepted then 1 else 0)
    && Count(s.broadcasts, x) == (if x in s.accepted && s.hasChild && x !in s.skipped then 1 else 0)
  }

  class Segment {
    var state: State
    var schedule: seq<Event>
    ghost var history: seq<Action>

    constructor (schedule: seq<Event>)
      ensures Valid() && state == START && this.schedule == schedule
    {
      this.state := START;
      this.schedule := schedule;
      this.history := [];
    }

    ghost predicate Valid()
      reads this
    {
      Exec(START, history) == Some(state)
    }

    method Do(a: Action)
      requires Valid() && Enabled(state, a)
      modifies this`state, this`history
      ensures Valid() && state == Next(old(state), a)
    {
      ExecSnoc(START, history, a);
      state := Next(state, a);
      history := history + [a];
    }

    /** The deliveries, and the exit of the child, that fall before the next step. */
    method Interrupted()
      requires Valid()
      modifies this
      ensures Valid() && Around(old(state), state) && |schedule| <= old(|schedule|)
      decreases |schedule|, 0
    {
      while schedule != [] && !schedule[0].Quiet?
        invariant Valid() && Around(old(state), state) && |schedule| <= old(|schedule|)
        decreases |schedule|
      {
        var event := schedule[0];
        schedule := schedule[1..];
        if event.Exited? {
          if state.alive {
            Do(ChildExits);
          }
        } else if Enabled(state, Arrive(event.signal)) {
          Forward(event.signal);
        }
      }
      if schedule != [] {
        schedule := schedule[1..];
      }
    }

    /** The handler `forward`. */
    method Forward(signal: Signal)
      requires Valid() && Enabled(state, Arrive(signal))
      modifies this
      ensures Valid() && Around(old(state), state) && |schedule| <= old(|schedule|)
      ensures signal in state.accepted
      decreases |schedule|, 2
    {
      Do(Arrive(signal));
      Interrupted();
      if signal in state.accepted {
        Do(HandlerStep);
      } else {
        Do(HandlerStep);
        Accept();
        if !state.hasChild {
          Do(HandlerStep);
        } else {
          Do(HandlerStep);
          SignalScientificGroupOnce();
        }
      }
    }

    /** The insertion into `accepted_signals` and the record of the name. */
    method Accept()
      requires Valid() && state.calls.Call? && state.calls.at.Add?
      modifies this
      ensures Valid() && |schedule| <= old(|schedule|)
      ensures Around(Goto(old(state), Branch), state) && state.calls.signal in state.accepted
      decreases |schedule|, 1
    {
      Interrupted();
      Do(HandlerStep);
      Interrupted();
      Do(HandlerStep);
      Interrupted();
    }

    /** `signal_scientific_group_once`, called from the handler. */
    method SignalScientificGroupOnce()
      requires Valid() && state.calls.Call? && state.calls.at.Ignore? && state.calls.signal !in state.ignored && state.hasChild
      modifies this
      ensures Valid() && |schedule| <= old(|schedule|)
      ensures Around(Pop(old(state)), state)
      decreases |schedule|, 1
    {
      Interrupted();
      Do(HandlerStep);
      Interrupted();
      Do(HandlerStep);
      Interrupted();
      Do(HandlerStep);
    }

    /** The loop over `pending_signals`, from the assignment of the child to the clearing of the list. */
    method ReplayPending()
      requires Valid() && state.main == Replay(0) && state.calls.Idle? && state.ignored == {}
      modifies this
      ensures Valid() && state.main.Waiting? && state.calls.Idle? && state.hasChild && state.ignored == {}
    {
      ghost var parked := state.pending;
      assert state.hasChild by { RunKeepsInv(history, state); }
      var i := 0;
      Interrupted();
      while i < |state.pending| && state.alive
        invariant Valid() && state.main == Replay(i) && state.calls.Idle? && state.ignored == {}
        invariant state.hasChild && state.pending == parked && i <= |parked|
        decreases |parked| - i
      {
        Do(MainStep(true));
        ReplayOne(i);
        i := i + 1;
        Interrupted();
      }
      Do(MainStep(true));
      Interrupted();
      Do(MainStep(true));
    }

    /** `signal_scientific_group_once`, called from the replay loop. */
    method ReplayOne(i: nat)
      requires Valid() && state.main == ReplayIgnore(i) && state.calls.Idle? && state.ignored == {}
      requires state.hasChild && i < |state.pending|
      modifies this
      ensures Valid() && Around(old(state).(main := Replay(i + 1)), state)
    {
      Interrupted();
      Do(MainStep(true));
      Interrupted();
      Do(MainStep(true));
      Interrupted();
      Do(MainStep(true));
    }

    /** Publication and Popen, up to the assignment of the child. */
    method Launch(published: bool, spawned: bool)
      requires Valid() && state == START
      modifies this
      ensures Valid() && state.calls.Idle? && state.ignored == {} && state.broadcasts == []
      ensures state.main == (if published && spawned then Replay(0) else Leaving)
      ensures state.hasChild == (published && spawned)
    {
      Interrupted();
      Do(MainStep(published));
      if published {
        Interrupted();
        Do(MainStep(spawned));
        if spawned {
          Interrupted();
          Do(MainStep(true));
        }
      }
    }

    /** `child.wait()` and the drain of the group. */
    method Await()
      requires Valid() && state.main.Waiting? && state.calls.Idle? && state.hasChild
      modifies this
      ensures Valid() && state.main.Leaving? && state.calls.Idle? && state.hasChild
    {
      Interrupted();
      if state.alive {
        Do(ChildExits);
      }
      Interrupted();
      Do(MainStep(true));
    }

    /** The signal-handling part of `execute_payload`.  `published` and `spawned` are what publication
        and Popen come to.  In every run in which no delivery is handled between the test and the
        insertion of another one, each accepted signal is recorded exactly once, and is broadcast
        exactly once if there is a child and the replay did not find it gone. */
    method ExecutePayload(published: bool, spawned: bool)
      requires Valid() && state == START
      modifies this
      ensures Valid() && state.main.Leaving? && state.calls.Idle?
      ensures state.hasChild == (published && spawned)
      ensures forall x :: x !in state.reentered ==> Settled(state, x)
      ensures forall x :: x in state.reentered ==> Count(state.received, x) >= 2
    {
      Launch(published, spawned);
      if state.hasChild {
        ReplayPending();
        Await();
      }
      forall x | x !in state.reentered ensures Settled(state, x) {
        SettledAtTheEnd(history, state, x);
      }
      forall x | x in state.reentered ensures Count(state.received, x) >= 2 {
        NameRepeatsIffReentered(history, state, x);
      }
    }
  }

  lemma SettledAtTheEnd(acts: seq<Action>, s: State, x: Signal)
    requires Exec(START, acts) == Some(s) && s.main.Leaving? && s.calls.Idle? && x !in s.reentered
    requires s.hasChild || s.broadcasts == []
    ensures Settled(s, x)
  {
    RunKeepsInv(acts, s);
    assert Conserved(s, x);
    if x in s.accepted && s.hasChild {
      NoSignalIsLost(acts, s, x);
    }
  }
}
