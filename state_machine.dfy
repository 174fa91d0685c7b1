/** The v1 state-machine framework: StateMachine, OverridableStateMachine and
    GoalOverridableStateMachine.

    The three Java classes form an inheritance chain whose only overridden
    operation is `setState`.  Here they are one class whose constant `kind`
    says which of the three an object is; `SetState` dispatches on `kind`
    exactly where Java dispatches dynamically, and `BaseSetState` is the
    `super.setState` of the base class.

    The clock (`Timer.getTimestamp()`) is the parameter `now`.  Telemetry
    (`Logger.recordOutput`) and the calls of the subclass hooks `transition()`
    and `update()` are recorded, in the order they happen, in the ghost `log`. */
module StateMachineV1 {

  /** Which class of the hierarchy a machine was constructed as. */
  datatype Kind = Plain | Overridable | GoalOverridable

  /** One observable step of a machine. */
  datatype Event<S> =
    | CurrentStateLogged(state: S)          // "<name>/CurrentState"
    | ManagedStateLogged(state: S)          // "<name>/ManagedState"
    | StateOverrideLogged(active: bool)     // "<name>/StateOverride"
    | GoalOverrideActiveLogged(active: bool)
    | GoalOverrideValueLogged(value: bool)
    | Transitioned(state: S)                // one call of transition(), in that current state
    | Updated                               // one call of update()

  /** The states seen by the calls of transition() recorded in `events`, in order. */
  ghost function TransitionsOf<S>(events: seq<Event<S>>): seq<S>
    decreases |events|
  {
    if events == [] then []
    else
      var rest := TransitionsOf(events[..|events| - 1]);
      match events[|events| - 1]
      case Transitioned(s) => rest + [s]
      case _ => rest
  }

  lemma {:induction false} TransitionsOfAppend<S>(a: seq<Event<S>>, b: seq<Event<S>>)
    ensures TransitionsOf(a + b) == TransitionsOf(a) + TransitionsOf(b)
    decreases |b|
  {
    if b == [] {
      assert a + b == a;
    } else {
      var b' := b[..|b| - 1];
      assert (a + b)[..|a + b| - 1] == a + b';
      TransitionsOfAppend(a, b');
    }
  }

  /** What the base `setState(newState)` emits when the machine was in `previous`:
      the state is logged only on an actual change, transition() runs always. */
  function BaseEvents<S(==)>(previous: S, newState: S): seq<Event<S>>
  {
    (if newState != previous then [CurrentStateLogged(newState)] else []) + [Transitioned(newState)]
  }

  /** Each base `setState` call runs transition() exactly once, in the new state. */
  lemma BaseEventsTransitionOnce<S>(previous: S, newState: S)
    ensures TransitionsOf(BaseEvents(previous, newState)) == [newState]
  {
    var e := BaseEvents(previous, newState);
    if newState != previous {
      var first: seq<Event<S>> := [CurrentStateLogged(newState)];
      assert e[..|e| - 1] == first;
      assert first[..0] == [];
      assert TransitionsOf(first) == [];
    } else {
      assert e[..|e| - 1] == [];
    }
  }

  /** The rule of `timeout(duration)`: strictly more than `duration` seconds
      have passed since the last actual state change. */
  function TimedOut(lastChange: real, now: real, duration: real): (out: bool)
    ensures out <==> lastChange + duration < now
  {
    now - lastChange > duration
  }

  /** Once timed out, a machine stays timed out as the clock advances. */
  lemma TimedOutStays(lastChange: real, t1: real, t2: real, duration: real)
    requires TimedOut(lastChange, t1, duration) && t1 <= t2
    ensures TimedOut(lastChange, t2, duration)
  {
  }

  /** Right at a state change no non-negative timeout has expired. */
  lemma NotTimedOutAtChange(now: real, duration: real)
    requires duration >= 0.0
    ensures !TimedOut(now, now, duration)
  {
  }

  class StateMachine<S(==)> {
    const kind: Kind
    var currentState: S
    var lastStateChangeTimestamp: real
    /** The state last requested through `setState`; meaningful for the overridable kinds. */
    var managedState: S
    var stateOverrideActive: bool
    var goalOverrideActive: bool
    var goalOverrideValue: bool
    ghost var log: seq<Event<S>>

    /** The override flags exist only on the classes that declare them. */
    ghost predicate FlagsFit()
      reads this
    {
      && (kind == Plain ==> !stateOverrideActive)
      && (kind != GoalOverridable ==> !goalOverrideActive && !goalOverrideValue)
    }

    /** The precedence rule: without an active override an overridable machine
        is in its managed state. */
    ghost predicate Valid()
      reads this
    {
      && FlagsFit()
      && (kind != Plain && !stateOverrideActive ==> currentState == managedState)
    }

    constructor (kind: Kind, initialState: S)
      ensures Valid()
      ensures this.kind == kind
      ensures currentState == initialState && managedState == initialState
      ensures lastStateChangeTimestamp == 0.0
      ensures !stateOverrideActive && !goalOverrideActive && !goalOverrideValue
      ensures log == []
    {
      this.kind := kind;
      currentState := initialState;
      lastStateChangeTimestamp := 0.0;
      managedState := initialState;
      stateOverrideActive := false;
      goalOverrideActive := false;
      goalOverrideValue := false;
      log := [];
    }

    // Queries

    function GetCurrentState(): (s: S)
      reads this
      ensures s == currentState
    {
      currentState
    }

    function GetLastStateChangeTimestamp(): (t: real)
      reads this
      ensures t == lastStateChangeTimestamp
    {
      lastStateChangeTimestamp
    }

    predicate InState(state: S)
      reads this
      ensures InState(state) <==> WaitForStateDone(state)
    {
      state == currentState
    }

    /** The condition of the command `waitForState(state)`: it ends once this holds. */
    predicate WaitForStateDone(state: S)
      reads this
      ensures WaitForStateDone(state) <==> GetCurrentState() == state
    {
      currentState == state
    }

    /** The condition of the command `waitForStates(states)`. */
    predicate WaitForStatesDone(states: set<S>)
      reads this
      ensures WaitForStatesDone(states) <==> exists s :: s in states && WaitForStateDone(s)
    {
      currentState in states
    }

    function Timeout(duration: real, now: real): (out: bool)
      reads this
      ensures out <==> now - lastStateChangeTimestamp > duration
    {
      TimedOut(lastStateChangeTimestamp, now, duration)
    }

    // Hooks

    /** The abstract `transition()` hook; its effect on the subsystem is the
        subclass's, so the model records only that it ran and in which state. */
    method Transition()
      modifies this`log
      ensures log == old(log) + [Transitioned(currentState)]
    {
      log := log + [Transitioned(currentState)];
    }

    /** The default `update()` hook does nothing but run. */
    method Update()
      modifies this`log
      ensures log == old(log) + [Updated]
    {
      log := log + [Updated];
    }

    /** `periodic()`, called by the scheduler each loop: runs update() once. */
    method Periodic()
      modifies this`log
      ensures log == old(log) + [Updated]
    {
      Update();
    }

    // setState

    /** The effect of the base `setState(newState)` at time `now`. */
    twostate predicate BaseSetStateEffect(newState: S, now: real)
      reads this
    {
      && currentState == newState
      && lastStateChangeTimestamp
         == (if newState != old(currentState) then now else old(lastStateChangeTimestamp))
      && log == old(log) + BaseEvents(old(currentState), newState)
      && managedState == old(managedState)
      && stateOverrideActive == old(stateOverrideActive)
      && goalOverrideActive == old(goalOverrideActive)
      && goalOverrideValue == old(goalOverrideValue)
    }

    /** `StateMachine.setState`: change and stamp only on an actual change, then
        run transition() whether or not anything changed. */
    method BaseSetState(newState: S, now: real)
      modifies this
      ensures BaseSetStateEffect(newState, now)
    {
      if newState != currentState {
        currentState := newState;
        log := log + [CurrentStateLogged(newState)];
        lastStateChangeTimestamp := now;
      }
      Transition();
    }

    /** The effect of the dynamically dispatched `setState(newState)`. */
    twostate predicate SetStateEffect(newState: S, now: real)
      reads this
    {
      if kind == Plain then
        BaseSetStateEffect(newState, now)
      else
        && managedState == newState
        && stateOverrideActive == old(stateOverrideActive)
        && goalOverrideActive == old(goalOverrideActive)
        && goalOverrideValue == old(goalOverrideValue)
        && if old(stateOverrideActive) then
             && currentState == old(currentState)
             && lastStateChangeTimestamp == old(lastStateChangeTimestamp)
             && log == old(log) + [ManagedStateLogged(newState)]
           else
             && currentState == newState
             && lastStateChangeTimestamp
                == (if newState != old(currentState) then now else old(lastStateChangeTimestamp))
             && log == old(log) + [ManagedStateLogged(newState)] + BaseEvents(old(currentState), newState)
    }

    /** `setState(newState)` as the object's class defines it.  On the
        overridable kinds it always records the managed state, and forwards to
        the base `setState` only when no override is active. */
    method SetState(newState: S, now: real)
      requires FlagsFit()
      modifies this
      ensures Valid()
      ensures SetStateEffect(newState, now)
    {
      if kind == Plain {
        BaseSetState(newState, now);
      } else {
        managedState := newState;
        log := log + [ManagedStateLogged(newState)];
        if !stateOverrideActive {
          BaseSetState(newState, now);
        }
      }
    }

    /** `setManagedState()`: re-apply the managed state through `setState`. */
    method SetManagedState(now: real)
      requires kind != Plain && FlagsFit()
      modifies this
      ensures Valid()
      ensures SetStateEffect(old(managedState), now)
      ensures managedState == old(managedState)
    {
      SetState(managedState, now);
    }

    // overrideState(state): the start and end hooks of the command it returns

    /** Start hook: force `state` through the base `setState` (so transition()
        runs and the managed state is untouched), and only then raise the flag. */
    method OverrideStart(state: S, now: real)
      requires kind != Plain && FlagsFit()
      modifies this
      ensures Valid() && stateOverrideActive
      ensures currentState == state && managedState == old(managedState)
      ensures lastStateChangeTimestamp
              == (if state != old(currentState) then now else old(lastStateChangeTimestamp))
      ensures log == old(log) + BaseEvents(old(currentState), state) + [StateOverrideLogged(true)]
      ensures goalOverrideActive == old(goalOverrideActive) && goalOverrideValue == old(goalOverrideValue)
    {
      BaseSetState(state, now);
      stateOverrideActive := true;
      log := log + [StateOverrideLogged(true)];
    }

    /** End hook, run for any cause (`finallyDo` ignores `interrupted`): lower
        the flag first, then re-apply the managed state. */
    method OverrideEnd(interrupted: bool, now: real)
      requires kind != Plain && FlagsFit()
      modifies this
      ensures Valid() && !stateOverrideActive
      ensures currentState == old(managedState) && managedState == old(managedState)
      ensures lastStateChangeTimestamp
              == (if old(managedState) != old(currentState) then now else old(lastStateChangeTimestamp))
      ensures log == old(log) + [StateOverrideLogged(false), ManagedStateLogged(old(managedState))]
                     + BaseEvents(old(currentState), old(managedState))
      ensures goalOverrideActive == old(goalOverrideActive) && goalOverrideValue == old(goalOverrideValue)
    {
      stateOverrideActive := false;
      log := log + [StateOverrideLogged(false)];
      SetManagedState(now);
    }

    // Goal override

    method EnableGoalOverride(goalValue: bool)
      requires kind == GoalOverridable && Valid()
      modifies this`goalOverrideActive, this`goalOverrideValue, this`log
      ensures Valid()
      ensures goalOverrideActive && goalOverrideValue == goalValue
      ensures log == old(log) + [GoalOverrideActiveLogged(true), GoalOverrideValueLogged(goalValue)]
      ensures currentState == old(currentState) && managedState == old(managedState)
      ensures stateOverrideActive == old(stateOverrideActive)
      ensures lastStateChangeTimestamp == old(lastStateChangeTimestamp)
    {
      goalOverrideActive := true;
      log := log + [GoalOverrideActiveLogged(true)];
      goalOverrideValue := goalValue;
      log := log + [GoalOverrideValueLogged(goalValue)];
    }

    method DisableGoalOverride()
      requires kind == GoalOverridable && Valid()
      modifies this`goalOverrideActive, this`goalOverrideValue, this`log
      ensures Valid()
      ensures !goalOverrideActive && !goalOverrideValue
      ensures log == old(log) + [GoalOverrideActiveLogged(false), GoalOverrideValueLogged(false)]
      ensures currentState == old(currentState) && managedState == old(managedState)
      ensures stateOverrideActive == old(stateOverrideActive)
      ensures lastStateChangeTimestamp == old(lastStateChangeTimestamp)
    {
      goalOverrideActive := false;
      log := log + [GoalOverrideActiveLogged(false)];
      goalOverrideValue := false;
      log := log + [GoalOverrideValueLogged(false)];
    }

    function GetGoalOverrideActive(): (active: bool)
      reads this
      ensures active == goalOverrideActive
    {
      goalOverrideActive
    }

    function GetGoalOverrideValue(): (value: bool)
      reads this
      ensures value == goalOverrideValue
    {
      goalOverrideValue
    }

    /** Start hook of `goalOverrideCommand(goalValue)`. */
    method GoalOverrideStart(goalValue: bool)
      requires kind == GoalOverridable && Valid()
      modifies this`goalOverrideActive, this`goalOverrideValue, this`log
      ensures Valid()
      ensures goalOverrideActive && goalOverrideValue == goalValue
      ensures log == old(log) + [GoalOverrideActiveLogged(true), GoalOverrideValueLogged(goalValue)]
    {
      EnableGoalOverride(goalValue);
    }

    /** End hook of `goalOverrideCommand`, for any cause. */
    method GoalOverrideEnd(interrupted: bool)
      requires kind == GoalOverridable && Valid()
      modifies this`goalOverrideActive, this`goalOverrideValue, this`log
      ensures Valid()
      ensures !goalOverrideActive && !goalOverrideValue
      ensures log == old(log) + [GoalOverrideActiveLogged(false), GoalOverrideValueLogged(false)]
    {
      DisableGoalOverride();
    }
  }
}
