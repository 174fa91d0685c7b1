/** What callers of the v1 framework can prove from its specifications alone:
    the scheduler's start/end calls of override commands, in the orders the
    command-based scheduler produces them. */
module OverrideScenarios {
  import opened StateMachineV1

  lemma TransitionsOfSingle<S>(e: Event<S>)
    ensures TransitionsOf([e]) == if e.Transitioned? then [e.state] else []
  {
    assert [e][..0] == [];
  }

  /** The transitions recorded by the events a base `setState`, followed by
      one logged flag, emit. */
  lemma TransitionsOfBaseThenFlag<S>(log: seq<Event<S>>, previous: S, state: S, flag: Event<S>)
    requires !flag.Transitioned?
    ensures TransitionsOf(log + BaseEvents(previous, state) + [flag]) == TransitionsOf(log) + [state]
  {
    TransitionsOfAppend(log + BaseEvents(previous, state), [flag]);
    TransitionsOfSingle(flag);
    TransitionsOfAppend(log, BaseEvents(previous, state));
    BaseEventsTransitionOnce(previous, state);
  }

  /** The transitions recorded by what the override end hook emits. */
  lemma TransitionsOfEndHook<S>(log: seq<Event<S>>, previous: S, managed: S)
    ensures TransitionsOf(log + [StateOverrideLogged(false), ManagedStateLogged(managed)]
                          + BaseEvents(previous, managed))
            == TransitionsOf(log) + [managed]
  {
    var flags: seq<Event<S>> := [StateOverrideLogged(false), ManagedStateLogged(managed)];
    TransitionsOfAppend(log + flags, BaseEvents(previous, managed));
    BaseEventsTransitionOnce(previous, managed);
    TransitionsOfAppend(log, flags);
    TransitionsOfAppend([flags[0]], [flags[1]]);
    assert [flags[0]] + [flags[1]] == flags;
    TransitionsOfSingle(flags[0]);
    TransitionsOfSingle(flags[1]);
  }

  /** Override round trip: with managed state A, start `overrideState(B)` and
      end it.  The subsystem is back in A with no further `setState` call,
      and transition() ran in B and then in A. */
  method OverrideRoundTrip<S(==)>(m: StateMachine<S>, forced: S, startTime: real, endTime: real)
    requires m.kind != Plain && m.Valid() && !m.stateOverrideActive
    modifies m
    ensures m.Valid() && !m.stateOverrideActive
    ensures m.currentState == old(m.managedState) && m.managedState == old(m.managedState)
    ensures TransitionsOf(m.log) == TransitionsOf(old(m.log)) + [forced, old(m.managedState)]
  {
    ghost var log0 := m.log;
    ghost var state0 := m.currentState;
    m.OverrideStart(forced, startTime);
    assert m.currentState == forced;
    ghost var log1 := m.log;
    TransitionsOfBaseThenFlag(log0, state0, forced, StateOverrideLogged(true));
    m.OverrideEnd(true, endTime);
    TransitionsOfEndHook(log1, forced, m.managedState);
  }

  /** The coordinator's request made while an override runs is not lost:
      it takes effect, without a further call, when the override ends. */
  method IntentKeptDuringOverride<S(==)>(m: StateMachine<S>, forced: S, requested: S, t1: real, t2: real, t3: real)
    requires m.kind != Plain && m.Valid() && !m.stateOverrideActive
    modifies m
    ensures m.Valid() && !m.stateOverrideActive
    ensures m.currentState == requested && m.managedState == requested
    ensures TransitionsOf(m.log) == TransitionsOf(old(m.log)) + [forced, requested]
  {
    ghost var log0 := m.log;
    ghost var state0 := m.currentState;
    m.OverrideStart(forced, t1);
    TransitionsOfBaseThenFlag(log0, state0, forced, StateOverrideLogged(true));
    ghost var log1 := m.log;
    m.SetState(requested, t2);
    assert m.currentState == forced && m.log == log1 + [ManagedStateLogged(requested)];
    TransitionsOfAppend(log1, [ManagedStateLogged(requested)]);
    TransitionsOfSingle(ManagedStateLogged(requested));
    ghost var log2 := m.log;
    m.OverrideEnd(true, t3);
    TransitionsOfEndHook(log2, forced, requested);
  }

  /** A new override of the same subsystem supersedes the running one: the
      scheduler ends the old command before starting the new.  The end hook
      re-applies the managed state first, so transition() runs in the managed
      state and then in the new forced state. */
  method SupersedeOverride<S(==)>(m: StateMachine<S>, next: S, now: real)
    requires m.kind != Plain && m.Valid() && m.stateOverrideActive
    modifies m
    ensures m.Valid() && m.stateOverrideActive
    ensures m.currentState == next && m.managedState == old(m.managedState)
    ensures TransitionsOf(m.log) == TransitionsOf(old(m.log)) + [old(m.managedState), next]
  {
    ghost var log0 := m.log;
    ghost var state0 := m.currentState;
    m.OverrideEnd(true, now);
    TransitionsOfEndHook(log0, state0, m.managedState);
    ghost var log1 := m.log;
    ghost var state1 := m.currentState;
    m.OverrideStart(next, now);
    TransitionsOfBaseThenFlag(log1, state1, next, StateOverrideLogged(true));
  }

  /** The transitions recorded by what `setState` emits on an overridable
      machine with no override active. */
  lemma TransitionsOfManagedThenBase<S>(log: seq<Event<S>>, previous: S, state: S)
    ensures TransitionsOf(log + [ManagedStateLogged(state)] + BaseEvents(previous, state))
            == TransitionsOf(log) + [state]
  {
    TransitionsOfAppend(log + [ManagedStateLogged(state)], BaseEvents(previous, state));
    BaseEventsTransitionOnce(previous, state);
    TransitionsOfAppend(log, [ManagedStateLogged(state)]);
    TransitionsOfSingle(ManagedStateLogged(state));
  }

  /** The transitions one `setState(x)` adds when no override is active. */
  lemma TransitionsOfFreeSetState<S>(kind: Kind, log: seq<Event<S>>, previous: S, x: S)
    ensures TransitionsOf(log + (if kind == Plain then [] else [ManagedStateLogged(x)]) + BaseEvents(previous, x))
            == TransitionsOf(log) + [x]
  {
    if kind == Plain {
      assert log + [] == log;
      TransitionsOfAppend(log, BaseEvents(previous, x));
      BaseEventsTransitionOnce(previous, x);
    } else {
      TransitionsOfManagedThenBase(log, previous, x);
    }
  }

  /** Repeating `setState(X)` while no override is active: the second call
      re-runs transition() but neither changes nor re-stamps the state. */
  method RepeatedSetState<S(==)>(m: StateMachine<S>, x: S, t1: real, t2: real)
    requires m.Valid() && (m.kind == Plain || !m.stateOverrideActive)
    modifies m
    ensures m.Valid() && m.currentState == x
    ensures m.lastStateChangeTimestamp == if x != old(m.currentState) then t1 else old(m.lastStateChangeTimestamp)
    ensures TransitionsOf(m.log) == TransitionsOf(old(m.log)) + [x, x]
  {
    ghost var log0 := m.log;
    ghost var state0 := m.currentState;
    m.SetState(x, t1);
    assert m.log == log0 + (if m.kind == Plain then [] else [ManagedStateLogged(x)]) + BaseEvents(state0, x);
    TransitionsOfFreeSetState(m.kind, log0, state0, x);
    ghost var log1 := m.log;
    m.SetState(x, t2);
    assert m.log == log1 + (if m.kind == Plain then [] else [ManagedStateLogged(x)]) + BaseEvents(x, x);
    TransitionsOfFreeSetState(m.kind, log1, x, x);
  }

  /** Right after an actual change no non-negative timeout has expired; one
      expires once more than its duration has passed. */
  method TimeoutAfterChange<S(==)>(m: StateMachine<S>, x: S, now: real, duration: real, later: real)
    requires m.Valid() && (m.kind == Plain || !m.stateOverrideActive) && x != m.currentState
    requires duration >= 0.0 && later > now + duration
    modifies m
    ensures !m.Timeout(duration, now) && m.Timeout(duration, later)
  {
    m.SetState(x, now);
  }

  /** Goal-override commands declare no subsystem requirement, so two of them
      can run at once; ending the first switches the override off although
      the second is still running. */
  method OverlappingGoalOverrides<S(==)>(m: StateMachine<S>, first: bool, second: bool)
    requires m.kind == GoalOverridable && m.Valid()
    modifies m
    ensures !m.goalOverrideActive && !m.goalOverrideValue
    ensures m.currentState == old(m.currentState) && m.managedState == old(m.managedState)
  {
    m.GoalOverrideStart(first);
    m.GoalOverrideStart(second);
    assert m.goalOverrideActive && m.goalOverrideValue == second;
    m.GoalOverrideEnd(true);
  }
}
