/** The unversioned `statemachine/StateMachine`: the same setState and timeout
    rules as the v1 base class, plus an `initialized` flag that no operation
    reads or writes.  Its rules are those of a plain v1 machine, to which every
    operation forwards. */
module LegacyStateMachine {
  import V1 = StateMachineV1

  class StateMachine<S(==)> {
    /** The current state, the change timestamp and the log, under the v1 base rules. */
    const machine: V1.StateMachine<S>
    /** A flag the class declares and starts false; no operation reads or writes it afterwards. */
    var initialized: bool

    ghost predicate Valid()
      reads machine
    {
      machine.kind == V1.Plain && machine.Valid()
    }

    constructor (initialState: S)
      ensures fresh(machine) && Valid()
      ensures machine.currentState == initialState
      ensures machine.lastStateChangeTimestamp == 0.0
      ensures machine.log == []
      ensures !initialized
    {
      machine := new V1.StateMachine(V1.Plain, initialState);
      initialized := false;
    }

    function GetCurrentState(): (s: S)
      reads machine
      ensures s == machine.currentState
    {
      machine.currentState
    }

    /** The condition of `waitForState(state)`. */
    predicate WaitForStateDone(state: S)
      reads machine
      ensures WaitForStateDone(state) <==> machine.InState(state)
    {
      machine.currentState == state
    }

    /** The condition of `waitForStates(states)`. */
    predicate WaitForStatesDone(states: set<S>)
      reads machine
      ensures WaitForStatesDone(states) <==> exists s :: s in states && WaitForStateDone(s)
    {
      machine.currentState in states
    }

    function Timeout(duration: real, now: real): (out: bool)
      reads machine
      ensures out <==> now - machine.lastStateChangeTimestamp > duration
    {
      machine.Timeout(duration, now)
    }

    /** `setState`: change and stamp only on an actual change, transition() always. */
    method SetState(newState: S, now: real)
      requires Valid()
      modifies machine
      ensures Valid()
      ensures machine.BaseSetStateEffect(newState, now)
    {
      machine.BaseSetState(newState, now);
    }
  }
}
