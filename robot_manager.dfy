/** RobotManager: a plain state machine over the coordinator's own states that
    commands subsystems by calling their (dynamically dispatched) `setState`. */
module RobotManagerV1 {
  import opened StateMachineV1

  class RobotManager<S(==)> {
    /** The manager's own state machine (RobotManager extends StateMachine). */
    const machine: StateMachine<S>

    constructor (initialState: S)
      ensures fresh(machine)
      ensures machine.Valid() && machine.kind == Plain
      ensures machine.currentState == initialState
      ensures machine.lastStateChangeTimestamp == 0.0
      ensures machine.log == []
    {
      machine := new StateMachine(Plain, initialState);
    }

    /** `setSubsystemState(subsystem, newState)`: exactly `subsystem.setState(newState)`.
        On an overridable subsystem whose override is active only the managed
        state moves; the manager itself is untouched unless it is the subsystem. */
    method SetSubsystemState<T(==)>(subsystem: StateMachine<T>, newState: T, now: real)
      requires subsystem.FlagsFit()
      modifies subsystem
      ensures subsystem.Valid()
      ensures subsystem.SetStateEffect(newState, now)
      ensures subsystem.kind != Plain && old(subsystem.stateOverrideActive) ==>
                && subsystem.currentState == old(subsystem.currentState)
                && subsystem.lastStateChangeTimestamp == old(subsystem.lastStateChangeTimestamp)
                && subsystem.managedState == newState
      ensures subsystem as object != machine as object ==> unchanged(machine)
    {
      subsystem.SetState(newState, now);
    }
  }
}
