# Override-capable state machines for robot subsystems — a Dafny model

This project models the control core of an FRC robot code base (Team Paradise, 1165).
Each subsystem is a state machine over named states. A coordinator, the robot
manager, commands subsystems through `setState`. An operator or autonomous
override can seize one subsystem at once. When the override ends, the
subsystem returns to the state the coordinator last asked for (the "managed
state").

The model covers:

- the v1 framework: `StateMachine`, `OverridableStateMachine`,
  `GoalOverridableStateMachine`, `RobotManager` and `StateUtils`;
- the older unversioned `statemachine/StateMachine`;
- `ChezySequenceCommandGroup`, a sequence command that starts its next child
  in the same scheduler loop;
- the change detection of `LoggedNumberWrapper`;
- the vendor helpers `PhoenixSignalUtils` and `SparkUtils`, shown through what
  they do to status signals and error codes;
- the `CANFrequency` presets;
- `GenericMotorData.update`.

How the model is built:

- **One class for the v1 hierarchy.** The three v1 classes are one Dafny class,
  `StateMachineV1.StateMachine`, whose constant `kind` says which class a machine
  was built as. `SetState` dispatches on `kind` where Java dispatches
  dynamically. `BaseSetState` is the base class's `setState`, used as
  `super.setState`.
- **Observable effects are a ghost log.** Telemetry and the calls of the
  `transition()` and `update()` hooks are recorded in order in a ghost
  `log`. `TransitionsOf(log)` is the trace of states in which `transition()`
  ran.
- **The clock is a parameter.** The current time is the parameter `now`.
- **Commands are their start and end hooks.** The commands the framework
  returns (`overrideState`, `goalOverrideCommand`, `waitForState(s)`) appear
  as their hooks and as completion predicates. Scheduler orders such as
  round trip and supersession are client methods in `OverrideScenarios`.
- **Child answers are an oracle.** In the sequence group, the answers the
  children give to `isFinished()` are the parameter `finished`. The calls the
  group makes on its children are a ghost log.
- **Supplier results are an oracle.** In both `tryUntilOk` helpers, the k-th
  result of the supplier is `attempt(k)`.

## Model

| member | source | states |
|---|---|---|
| StateMachineV1.TransitionsOfAppend | src/main/java/com/team1165/util/statemachine/v1/StateMachine.java:139-140 | the transition() calls recorded by two stretches of a run are those of the first followed by those of the second |
| StateMachineV1.BaseEventsTransitionOnce | src/main/java/com/team1165/util/statemachine/v1/StateMachine.java:130-141 | one base `setState` call runs transition() exactly once, in the new state, whether or not the state changed |
| StateMachineV1.TimedOut | src/main/java/com/team1165/util/statemachine/v1/StateMachine.java:150-152 | `timeout(d)` holds iff more than `d` seconds (strictly) have passed since the last state change |
| StateMachineV1.TimedOutStays | src/main/java/com/team1165/util/statemachine/v1/StateMachine.java:150-152 | once timed out, a machine stays timed out as the clock advances without a state change |
| StateMachineV1.NotTimedOutAtChange | src/main/java/com/team1165/util/statemachine/v1/StateMachine.java:137-152 | at the instant of a state change no non-negative timeout has expired |
| StateMachineV1.StateMachine.constructor | src/main/java/com/team1165/util/statemachine/v1/StateMachine.java:47-61 | a new machine is in its initial state with timestamp 0.0; the overridable kinds also start with managed state = initial state, no override and both goal-override flags false |
| StateMachineV1.StateMachine.GetCurrentState | src/main/java/com/team1165/util/statemachine/v1/StateMachine.java:94-96 | returns the current state and changes nothing |
| StateMachineV1.StateMachine.GetLastStateChangeTimestamp | src/main/java/com/team1165/util/statemachine/v1/StateMachine.java:103-105 | returns the time of the last actual state change and changes nothing |
| StateMachineV1.StateMachine.InState | src/main/java/com/team1165/util/statemachine/v1/StateMachine.java:112-114 | `inState(s)` agrees with the completion condition of `waitForState(s)`: both hold iff `s` is the current state |
| StateMachineV1.StateMachine.WaitForStateDone | src/main/java/com/team1165/util/statemachine/v1/StateMachine.java:71-73 | the command `waitForState(s)` completes exactly when `getCurrentState()` returns `s` |
| StateMachineV1.StateMachine.WaitForStatesDone | src/main/java/com/team1165/util/statemachine/v1/StateMachine.java:71-83 | `waitForStates(S)` completes exactly when `waitForState(s)` would complete for some `s` in `S` |
| StateMachineV1.StateMachine.Timeout | src/main/java/com/team1165/util/statemachine/v1/StateMachine.java:150-152 | the machine has timed out iff `now - lastStateChangeTimestamp > duration` |
| StateMachineV1.StateMachine.Transition | src/main/java/com/team1165/util/statemachine/v1/StateMachine.java:158-163 | one call of the transition() hook, recorded in the current state; nothing else changes |
| StateMachineV1.StateMachine.Update | src/main/java/com/team1165/util/statemachine/v1/StateMachine.java:165-169 | the default update() hook runs and changes no state |
| StateMachineV1.StateMachine.Periodic | src/main/java/com/team1165/util/statemachine/v1/StateMachine.java:120-123 | `periodic()` runs update() exactly once and changes no state |
| StateMachineV1.StateMachine.BaseSetState | src/main/java/com/team1165/util/statemachine/v1/StateMachine.java:130-141 | on an actual change the state takes the new value and the timestamp takes `now`, the change is logged and then transition() runs once; on a repeat the state and timestamp stay; managed state and all override flags are untouched |
| StateMachineV1.StateMachine.SetState | src/main/java/com/team1165/util/statemachine/v1/OverridableStateMachine.java:98-104 | dynamically dispatched `setState`: on a plain machine the base rule; on an overridable one the managed state always takes the new value, and the base rule applies only when no override is active (otherwise state, timestamp and transition trace stay); the precedence invariant holds afterwards |
| StateMachineV1.StateMachine.SetManagedState | src/main/java/com/team1165/util/statemachine/v1/OverridableStateMachine.java:84-90 | `setManagedState()` has exactly the effect of `setState(managedState)` and leaves the managed state as it was |
| StateMachineV1.StateMachine.OverrideStart | src/main/java/com/team1165/util/statemachine/v1/OverridableStateMachine.java:68-74 | start hook: the forced state is entered through the base `setState` (transition() runs, timestamp on change, managed state untouched) and only afterwards the override flag is raised and logged |
| StateMachineV1.StateMachine.OverrideEnd | src/main/java/com/team1165/util/statemachine/v1/OverridableStateMachine.java:76-90 | end hook, for any cause: the flag is lowered and logged first, then the managed state is re-applied through `setState`, so the machine is back in its managed state and transition() ran once in it |
| StateMachineV1.StateMachine.EnableGoalOverride | src/main/java/com/team1165/util/statemachine/v1/GoalOverridableStateMachine.java:72-81 | the goal override becomes active with the given value (a repeat call overwrites the value); current state, managed state, state-override flag and timestamp are unchanged |
| StateMachineV1.StateMachine.DisableGoalOverride | src/main/java/com/team1165/util/statemachine/v1/GoalOverridableStateMachine.java:66-70 | both goal-override fields become false; current state, managed state, state-override flag and timestamp are unchanged |
| StateMachineV1.StateMachine.GetGoalOverrideActive | src/main/java/com/team1165/util/statemachine/v1/GoalOverridableStateMachine.java:83-90 | returns the goal-override flag without side effects |
| StateMachineV1.StateMachine.GetGoalOverrideValue | src/main/java/com/team1165/util/statemachine/v1/GoalOverridableStateMachine.java:92-99 | returns the goal-override value without side effects |
| StateMachineV1.StateMachine.GoalOverrideStart | src/main/java/com/team1165/util/statemachine/v1/GoalOverridableStateMachine.java:60-61 | start of `goalOverrideCommand(v)`: enables the goal override with value `v` |
| StateMachineV1.StateMachine.GoalOverrideEnd | src/main/java/com/team1165/util/statemachine/v1/GoalOverridableStateMachine.java:62-63 | end of `goalOverrideCommand`, for any cause: disables the goal override |
| OverrideScenarios.OverrideRoundTrip | src/main/java/com/team1165/util/statemachine/v1/OverridableStateMachine.java:54-81 | with managed state A, starting and then ending `overrideState(B)` leaves the machine in A with no override, and the transition trace gains B then A |
| OverrideScenarios.IntentKeptDuringOverride | src/main/java/com/team1165/util/statemachine/v1/OverridableStateMachine.java:76-104 | a `setState(R)` made while an override runs does not move the subsystem, but the end of the override takes it to R without a further call; trace gains forced then R |
| OverrideScenarios.SupersedeOverride | src/main/java/com/team1165/util/statemachine/v1/OverridableStateMachine.java:57-81 | superseding an active override with `overrideState(C)` runs the old end hook first: the trace gains the managed state and then C, and the override is active again |
| OverrideScenarios.RepeatedSetState | src/main/java/com/team1165/util/statemachine/v1/StateMachine.java:130-141 | with no override active (always so on a plain machine), repeating `setState(x)` runs transition() twice but stamps the time only for the first, actual change |
| OverrideScenarios.TimeoutAfterChange | src/main/java/com/team1165/util/statemachine/v1/StateMachine.java:137-152 | with no override active (always so on a plain machine), right after an actual change made by `setState` no non-negative timeout has expired, and it has once more than its duration has passed |
| OverrideScenarios.OverlappingGoalOverrides | src/main/java/com/team1165/util/statemachine/v1/GoalOverridableStateMachine.java:60-63 | the goal-override command declares no requirement, so two can run at once; ending the first switches the goal override off although the second still runs |
| RobotManagerV1.RobotManager.constructor | src/main/java/com/team1165/util/statemachine/v1/RobotManager.java:17-18 | a manager is a plain state machine that starts in its initial state at timestamp 0.0 |
| RobotManagerV1.RobotManager.SetSubsystemState | src/main/java/com/team1165/util/statemachine/v1/RobotManager.java:44-47 | has exactly the effect of `subsystem.setState(newState)`; on an overridable subsystem with an active override only its managed state changes; the manager's own machine is unchanged unless it is the subsystem |
| LegacyStateMachine.StateMachine.constructor | src/main/java/com/team1165/util/statemachine/StateMachine.java:22-33 | a new machine is in its initial state, timestamp 0.0, `initialized == false` |
| LegacyStateMachine.StateMachine.GetCurrentState | src/main/java/com/team1165/util/statemachine/StateMachine.java:43-45 | returns the current state and changes nothing |
| LegacyStateMachine.StateMachine.WaitForStateDone | src/main/java/com/team1165/util/statemachine/StateMachine.java:35-37 | `waitForState(s)` completes iff `s` is the current state |
| LegacyStateMachine.StateMachine.WaitForStatesDone | src/main/java/com/team1165/util/statemachine/StateMachine.java:39-41 | `waitForStates(S)` completes iff the current state is in `S`, i.e. iff some single-state wait in `S` would complete |
| LegacyStateMachine.StateMachine.Timeout | src/main/java/com/team1165/util/statemachine/StateMachine.java:60-62 | timed out iff `now - lastStateChangeTimestamp > duration` |
| LegacyStateMachine.StateMachine.SetState | src/main/java/com/team1165/util/statemachine/StateMachine.java:47-58 | state and timestamp change only on an actual change; transition() runs once per call |
| Retry.TryUntilOk | src/main/java/com/team1165/util/vendor/ctre/PhoenixSignalUtils.java:185-190 | true iff one of the first `maxAttempts` results is OK; stops right after the first OK; at most `maxAttempts` calls, none when `maxAttempts <= 0`; all calls made when no result is OK |
| CANFrequencies.CANFrequency.GetFrequency | src/main/java/com/team1165/util/constants/CANFrequency.java:35-37 | the FD preset on a CAN FD network and the standard preset otherwise; always positive |
| CANFrequencies.PresetTable | src/main/java/com/team1165/util/constants/CANFrequency.java:15-19 | FAST = 250/100, MEDIUM = 100/50, SLOW = 25/10 Hz (FD/standard) |
| CANFrequencies.PresetsOrdered | src/main/java/com/team1165/util/constants/CANFrequency.java:15-37 | on either kind of bus FAST > MEDIUM > SLOW |
| CANFrequencies.FdAtLeastStandard | src/main/java/com/team1165/util/constants/CANFrequency.java:15-37 | every preset gives a CAN FD bus at least the frequency of a CAN 2.0 bus |
| PhoenixSignalUtils.StatusSignal.SetUpdateFrequency | src/main/java/com/team1165/util/vendor/ctre/PhoenixSignalUtils.java:116 | the signal's applied frequency becomes the requested one |
| PhoenixSignalUtils.AppendNewKeepsPrefix | src/main/java/com/team1165/util/vendor/ctre/PhoenixSignalUtils.java:48-54 | registration keeps every signal already in the list, in its order |
| PhoenixSignalUtils.AppendNewElements | src/main/java/com/team1165/util/vendor/ctre/PhoenixSignalUtils.java:48-54 | after registration a signal is in the list iff it was there before or was passed in |
| PhoenixSignalUtils.AppendNewNoDuplicates | src/main/java/com/team1165/util/vendor/ctre/PhoenixSignalUtils.java:49-53 | registration keeps a duplicate-free list duplicate-free, even when the arguments repeat a signal |
| PhoenixSignalUtils.AppendNewPresent | src/main/java/com/team1165/util/vendor/ctre/PhoenixSignalUtils.java:51-52 | re-registering signals that are all present leaves the list unchanged |
| PhoenixSignalUtils.BusSignals.constructor | src/main/java/com/team1165/util/vendor/ctre/PhoenixSignalUtils.java:33-36 | a group holds its bus and the initial signals, registered with duplicates dropped |
| PhoenixSignalUtils.BusSignals.RegisterSignals | src/main/java/com/team1165/util/vendor/ctre/PhoenixSignalUtils.java:48-58 | the list becomes the old list with each new signal not yet present appended, in argument order |
| PhoenixSignalUtils.FindBus | src/main/java/com/team1165/util/vendor/ctre/PhoenixSignalUtils.java:82-87 | the index of the first group on the given bus, or -1 exactly when no group is on it |
| PhoenixSignalUtils.SignalRegistry.constructor | src/main/java/com/team1165/util/vendor/ctre/PhoenixSignalUtils.java:62 | the registry starts with no groups |
| PhoenixSignalUtils.SignalRegistry.RegisterSignals | src/main/java/com/team1165/util/vendor/ctre/PhoenixSignalUtils.java:80-94 | with a known bus only that group's list changes (by registration) and no group is added; with an unknown bus exactly one fresh group for it is appended at the end; at most one group per bus and no duplicate signal in a group, before and after |
| PhoenixSignalUtils.NewFrequency | src/main/java/com/team1165/util/vendor/ctre/PhoenixSignalUtils.java:113-121 | the new frequency is at least the target; with keep-higher on it is never below the old one and is either the old one or the target; with it off it is the target |
| PhoenixSignalUtils.SetUpdateFrequencyForAll | src/main/java/com/team1165/util/vendor/ctre/PhoenixSignalUtils.java:119-121 | every signal gets the target frequency |
| PhoenixSignalUtils.SetUpdateFrequency | src/main/java/com/team1165/util/vendor/ctre/PhoenixSignalUtils.java:105-122 | each signal's new frequency is `NewFrequency(old, frequency.getFrequency(bus), keepHigher)` |
| PhoenixSignalUtils.SetUpdateFrequencyKeepingHigher | src/main/java/com/team1165/util/vendor/ctre/PhoenixSignalUtils.java:135-138 | the overload without the flag is the keep-higher case |
| PhoenixSignalUtils.SetFrequencyAndRegister | src/main/java/com/team1165/util/vendor/ctre/PhoenixSignalUtils.java:151-158 | frequencies are set first and the signals then registered on the bus, with the effects of both calls |
| PhoenixSignalUtils.SetFrequencyAndRegisterKeepingHigher | src/main/java/com/team1165/util/vendor/ctre/PhoenixSignalUtils.java:173-176 | the overload without the flag is the keep-higher case |
| PhoenixSignalUtils.TryUntilOk | src/main/java/com/team1165/util/vendor/ctre/PhoenixSignalUtils.java:185-190 | true iff one of the first `maxAttempts` status codes is OK; stops at the first OK; no call when `maxAttempts <= 0` |
| SparkUtils.IfOkOrDefault | src/main/java/com/team1165/util/vendor/rev/SparkUtils.java:99-107 | returns the supplied value when the error the read left is kOk and the default otherwise; the calls made are the supplier and then `getLastError()`, in that order, and nothing else |
| SparkUtils.IfOkOrDefaultWithCallback | src/main/java/com/team1165/util/vendor/rev/SparkUtils.java:80-89 | the same selection; the calls made are the supplier, then `getLastError()`, then one run of the error method exactly when the default is returned |
| SparkUtils.CallbackDoesNotChangeValue | src/main/java/com/team1165/util/vendor/rev/SparkUtils.java:80-107 | on the same reading both forms return the same value, the supplied one when the read left kOk; the last error before the read plays no part |
| SparkUtils.TryUntilOk | src/main/java/com/team1165/util/vendor/rev/SparkUtils.java:191-196 | true iff one of the first `maxAttempts` results is kOk; stops at the first kOk; no call when `maxAttempts <= 0` |
| MotorData.GenericMotorData.constructor | src/main/java/com/team1165/util/logging/motordata/MotorData.java:15-52 | before any update all numeric fields are 0.0, `connected` and `faultActive` are false and `faults` is empty |
| MotorData.GenericMotorData.Update | src/main/java/com/team1165/util/logging/motordata/GenericMotorData.java:32-53 | all ten fields take exactly the arguments of their names |
| MotorData.GenericMotorData.UpdateMeasured | src/main/java/com/team1165/util/logging/motordata/GenericMotorData.java:66-83 | the effect of the full update with connected, no fault, no fault text and both temperatures 0.0; the other five fields from the arguments |
| StateUtils.DefaultGet | src/main/java/com/team1165/util/statemachine/v1/State.java:19-21 | the interface's default `get()` offers no default value |
| StateUtils.TunableMapEntries | src/main/java/com/team1165/util/statemachine/v1/StateUtils.java:19-40 | a state is a key of the table iff it was given and its `get()` is present, and its entry is the tunable number keyed `key + "/" + name` holding that default |
| StateUtils.DefaultGetGivesNoEntries | src/main/java/com/team1165/util/statemachine/v1/State.java:19-21 | states that keep the interface's default `get()` never appear in the table |
| StateUtils.FillMap | src/main/java/com/team1165/util/statemachine/v1/StateUtils.java:18-26 | the loop over the states builds exactly the table of those with a default |
| StateUtils.CreateTunableNumberMap | src/main/java/com/team1165/util/statemachine/v1/StateUtils.java:14-30 | fails with IllegalArgument iff no state is given; otherwise returns the table of the given states |
| StateUtils.CreateTunableNumberMapForEnum | src/main/java/com/team1165/util/statemachine/v1/StateUtils.java:32-42 | never fails and returns the table over every constant of the enum |
| LoggedNumber.HasChangedStep | src/main/java/com/team1165/util/tunables/wrappers/numbers/LoggedNumberWrapper.java:34-45 | reports a change iff the id was never seen or its last value differs; on a change the id's entry takes the current value, otherwise the map is unchanged |
| LoggedNumber.HasChangedRecords | src/main/java/com/team1165/util/tunables/wrappers/numbers/LoggedNumberWrapper.java:21-44 | after any call the id's entry holds the current value and no other id's entry has changed |
| LoggedNumber.FirstCallChanged | src/main/java/com/team1165/util/tunables/wrappers/numbers/LoggedNumberWrapper.java:36-42 | the first call for an unseen id reports a change |
| LoggedNumber.RepeatCallUnchanged | src/main/java/com/team1165/util/tunables/wrappers/numbers/LoggedNumberWrapper.java:39-44 | asking again with the value unchanged reports no change and keeps the map |
| LoggedNumber.LoggedNumberWrapper.constructor | src/main/java/com/team1165/util/tunables/wrappers/numbers/LoggedNumberWrapper.java:21-32 | a new wrapper has no last values |
| LoggedNumber.LoggedNumberWrapper.HasChanged | src/main/java/com/team1165/util/tunables/wrappers/numbers/LoggedNumberWrapper.java:34-45 | answer and new map are those of one `HasChangedStep` from the old map |
| ChezySequence.AdvanceIsFirstUnfinished | src/main/java/com/team1165/util/commands/ChezySequenceCommandGroup.java:76-94 | one `execute` stops at the first child from the current index on that does not report finished, or after the last; the index never decreases and never exceeds the number of children |
| ChezySequence.ExecuteLogEnds | src/main/java/com/team1165/util/commands/ChezySequenceCommandGroup.java:84-86 | within one `execute` the children ended are exactly those passed over, each with `end(false)`; none is ended as interrupted |
| ChezySequence.ExecuteLogRuns | src/main/java/com/team1165/util/commands/ChezySequenceCommandGroup.java:81-91 | within one `execute` the children run are exactly those passed over and the one it stops at |
| ChezySequence.SequenceCommandGroup.constructor | src/main/java/com/team1165/util/commands/ChezySequenceCommandGroup.java:39-41 | a new group holds the given children in order, is not running, and its flags describe its children |
| ChezySequence.SequenceCommandGroup.AddCommands | src/main/java/com/team1165/util/commands/ChezySequenceCommandGroup.java:48-64 | fails with IllegalState and adds nothing iff the group is running; otherwise appends the children in argument order; `runsWhenDisabled` stays the conjunction over children, the behaviour is kCancelSelf iff some child's is, the requirements the union of the children's |
| ChezySequence.SequenceCommandGroup.Initialize | src/main/java/com/team1165/util/commands/ChezySequenceCommandGroup.java:67-73 | the index becomes 0 and only the first child, if any, is initialized |
| ChezySequence.SequenceCommandGroup.Execute | src/main/java/com/team1165/util/commands/ChezySequenceCommandGroup.java:76-94 | the index moves to where `Advance` stops and the children see exactly the calls of `ExecuteLog`: run, and when finished end(false), initialize the next and run it in the same call; an empty group is untouched |
| ChezySequence.SequenceCommandGroup.End | src/main/java/com/team1165/util/commands/ChezySequenceCommandGroup.java:97-105 | the running child is ended with `end(true)` only when interrupted and `0 <= index < size`; the index always returns to -1 |
| ChezySequence.SequenceCommandGroup.IsFinished | src/main/java/com/team1165/util/commands/ChezySequenceCommandGroup.java:108-110 | a finished group has not been ended (its index is not -1); an empty group is finished exactly when its index is 0; in general the group is finished when the index has passed the last child |
| ChezySequence.SequenceCommandGroup.RunsWhenDisabled | src/main/java/com/team1165/util/commands/ChezySequenceCommandGroup.java:30-115 | holds iff every child runs when disabled (true for no children) |
| ChezySequence.SequenceCommandGroup.GetInterruptionBehavior | src/main/java/com/team1165/util/commands/ChezySequenceCommandGroup.java:31-120 | kCancelSelf iff some child is kCancelSelf, kCancelIncoming otherwise |
| ChezySequence.EmptyGroupFinishesAtOnce | src/main/java/com/team1165/util/commands/ChezySequenceCommandGroup.java:67-110 | an empty group is finished right after `initialize`, before any `execute` |
| ChezySequence.InstantChildrenFinishInOneLoop | src/main/java/com/team1165/util/commands/ChezySequenceCommandGroup.java:76-110 | for a non-empty group of children that finish as soon as they run, the first `execute` runs every child and ends each one as not interrupted, after which the group is finished |

## Left out

- The WPILib command scheduler is not modelled. That covers command composition, requirement arbitration and `registerComposedCommands`. Its effect is given as explicit calls of the start and end hooks, in the orders the scheduler uses.
- `Logger.recordOutput` telemetry is write-only. It exists only as events in a ghost log.
- `Timer.getTimestamp()` is the parameter `now`.
- StateMachineV1.StateMachine.Transition: a subclass's `transition()` may call `setState` again, and that re-entrant call is not modelled. The hook only records that it ran. The results of `BaseSetState`, `SetState`, `OverrideStart`, `OverrideEnd` and the `OverrideScenarios` methods hold only for a `transition()` that does not change the state. Such a call made inside the override start hook would even run before the flag is raised, through the overridable `setState`, and so overwrite the managed state.
- Doubles are modelled as mathematical reals. NaN and rounding are not modelled.
- The commented-out interrupt hook in `RobotManager` is not active code and is not modelled.
- The subsystem name read by `getName()` is not modelled. It only prefixes telemetry keys.
- The SPARK's reads are modelled by `SparkUtils.Spark`: the supplier is one call that returns a given value and leaves a given last error, and the error callback only records that it ran.
- The unversioned `StateMachine`'s `update()` hook has no caller in that class, so the model has no member for it.
- The override commands never finish on their own: `alongWith` ends only when all its members have ended, and `idle()` never ends. The model states this in prose only, because the WPILib command classes are not modelled; an override ends only through its end hook.
- `BusSignals.refreshAll`, the static `refreshAll` and `ArrayList.trimToSize` are not modelled, because they are vendor I/O or memory tuning with no observable effect on the model.
- A Phoenix `BaseStatusSignal` is stood in for by `PhoenixSignalUtils.StatusSignal`, reduced to its applied update frequency. Its constructor builds the stand-in and models no source line. Vendor calls can fail, and those failures are not modelled.
- `CANBus` is compared as a value (name and FD flag). This stands for `CANBus.equals`.
- `StatusCode.isOK()` is modelled as "the code is 0", the value of OK.
- `SparkUtils.createNewSpark` is not modelled. It constructs and configures a device and raises an `Alert`.
- `TalonMotorData`, `SparkMotorData`, the tunables layer, the v2 state machine and the test subsystem are not part of this model.
- The single `IfOkOrDefault` and `IfOkOrDefaultWithCallback` methods are generic in the value type. The Java boolean, double and `T` overloads have the same body and are all modelled by them.
- `StateUtils`: the tunable number is reduced to its key and default value. `LoggedTunableNumber` is not part of this model. A state's `name()` and `get()` are the parameters `name` and `get`.
- `ChezySequence.SequenceCommandGroup.Execute` requires the index to be a valid child position when there are children. On a non-empty group, the scheduler calls `execute` only while the index is a valid child position. Outside that, the Java code would throw an index error, and that error is not modelled.
- A child command is reduced to its requirements, its `runsWhenDisabled` flag and its interruption behaviour. What the child itself does is not modelled.
- `LoggedNumberWrapper`: the current value that `get()` returns is the parameter `current`.

## Notes on the code's behaviour

- **Override start.** The start hook enters the forced state through the base `setState` (`OverridableStateMachine.java:71`). So `transition()` runs and, when the forced state differs from the current one, the change time is stamped. `OverrideStart` states both.
- **Supersession.** When one override supersedes another, the scheduler ends the old command first. Its end hook re-applies the managed state (`OverridableStateMachine.java:76-81`). So the transition trace is B, then the managed state, then C. `OverrideScenarios.SupersedeOverride` proves this.
- **Goal override.** The goal-override command declares no subsystem requirement (`GoalOverridableStateMachine.java:61`), so two of them can run at once. `OverrideScenarios.OverlappingGoalOverrides` shows that ending one clears the override that another still running command set.
