/** ChezySequenceCommandGroup: runs its child commands one after another,
    starting the next child in the same scheduler loop in which the previous
    one finished.

    Children are abstract commands.  What a child does is the child's own
    business; the group's effect on them is the order in which it calls their
    lifecycle methods, recorded in the ghost `log`.  The answers of the
    children's `isFinished()` during one `execute` are the oracle `finished`. */
module ChezySequence {

  datatype InterruptionBehavior = kCancelSelf | kCancelIncoming

  /** A child command as the group sees it. */
  datatype Command = Command(
    requirements: set<nat>,
    runsWhenDisabled: bool,
    interruptionBehavior: InterruptionBehavior)

  /** A lifecycle call the group makes on its child at position `index`. */
  datatype Event =
    | Initialized(index: nat)
    | Executed(index: nat)
    | Ended(index: nat, interrupted: bool)

  datatype Outcome = Ok | IllegalState(message: string)

  predicate AllRunWhenDisabled(commands: seq<Command>)
  {
    forall c :: c in commands ==> c.runsWhenDisabled
  }

  predicate AnyCancelSelf(commands: seq<Command>)
  {
    exists c :: c in commands && c.interruptionBehavior == kCancelSelf
  }

  /** The group cancels itself for an incoming command iff some child would. */
  function Behavior(commands: seq<Command>): InterruptionBehavior
  {
    if AnyCancelSelf(commands) then kCancelSelf else kCancelIncoming
  }

  /** The group requires every subsystem one of its children requires. */
  function Requirements(commands: seq<Command>): set<nat>
  {
    set c, r | c in commands && r in c.requirements :: r
  }

  /** The index at which one `execute` started at child `i` stops. */
  function Advance(i: nat, n: nat, finished: nat -> bool): nat
    decreases n - i
  {
    if i >= n then i
    else if finished(i) then Advance(i + 1, n, finished)
    else i
  }

  /** `execute` stops at the first child at or after `i` that does not report
      finished, or after the last child; it never moves backwards. */
  lemma {:induction false} AdvanceIsFirstUnfinished(i: nat, n: nat, finished: nat -> bool)
    requires i <= n
    ensures i <= Advance(i, n, finished) <= n
    ensures forall k :: i <= k < Advance(i, n, finished) ==> finished(k)
    ensures Advance(i, n, finished) < n ==> !finished(Advance(i, n, finished))
    decreases n - i
  {
    if i < n && finished(i) {
      AdvanceIsFirstUnfinished(i + 1, n, finished);
    }
  }

  /** The lifecycle calls of one `execute` started at child `i` of `n`. */
  function ExecuteLog(i: nat, n: nat, finished: nat -> bool): seq<Event>
    requires i < n
    decreases n - i
  {
    if !finished(i) then [Executed(i)]
    else if i + 1 < n then [Executed(i), Ended(i, false), Initialized(i + 1)] + ExecuteLog(i + 1, n, finished)
    else [Executed(i), Ended(i, false)]
  }

  lemma InConcat<T>(x: T, a: seq<T>, b: seq<T>)
    ensures x in a + b <==> x in a || x in b
  {
  }

  /** One step of `Advance` past a child that reports finished. */
  lemma {:induction false} AdvanceStep(i: nat, n: nat, finished: nat -> bool)
    requires i < n && finished(i)
    ensures Advance(i, n, finished) == Advance(i + 1, n, finished)
  {
  }

  /** Within one `execute`, the children ended are exactly those passed over,
      each ended as not interrupted, and none is ended as interrupted. */
  lemma {:induction false} ExecuteLogEnds(i: nat, n: nat, finished: nat -> bool, k: nat, interrupted: bool)
    requires i < n
    ensures Ended(k, interrupted) in ExecuteLog(i, n, finished)
            <==> !interrupted && i <= k < Advance(i, n, finished)
    decreases n - i
  {
    var log := ExecuteLog(i, n, finished);
    if !finished(i) {
      assert log == [Executed(i)];
      assert Advance(i, n, finished) == i;
    } else if i + 1 < n {
      var head := [Executed(i), Ended(i, false), Initialized(i + 1)];
      var rest := ExecuteLog(i + 1, n, finished);
      assert log == head + rest;
      InConcat(Ended(k, interrupted), head, rest);
      AdvanceStep(i, n, finished);
      AdvanceIsFirstUnfinished(i + 1, n, finished);
      ExecuteLogEnds(i + 1, n, finished, k, interrupted);
    } else {
      assert log == [Executed(i), Ended(i, false)];
      AdvanceStep(i, n, finished);
      assert Advance(i + 1, n, finished) == n;
    }
  }

  /** Within one `execute`, the children run are the ones passed over and the
      one it stops at. */
  lemma {:induction false} ExecuteLogRuns(i: nat, n: nat, finished: nat -> bool, k: nat)
    requires i < n
    ensures Executed(k) in ExecuteLog(i, n, finished)
            <==> i <= k <= Advance(i, n, finished) && k < n
    decreases n - i
  {
    var log := ExecuteLog(i, n, finished);
    if !finished(i) {
      assert log == [Executed(i)];
      assert Advance(i, n, finished) == i;
    } else if i + 1 < n {
      var head := [Executed(i), Ended(i, false), Initialized(i + 1)];
      var rest := ExecuteLog(i + 1, n, finished);
      assert log == head + rest;
      InConcat(Executed(k), head, rest);
      AdvanceStep(i, n, finished);
      AdvanceIsFirstUnfinished(i + 1, n, finished);
      ExecuteLogRuns(i + 1, n, finished, k);
    } else {
      assert log == [Executed(i), Ended(i, false)];
      AdvanceStep(i, n, finished);
      assert Advance(i + 1, n, finished) == n;
    }
  }

  class SequenceCommandGroup {
    var commands: seq<Command>
    /** -1 while not running; |commands| once every child has finished. */
    var currentCommandIndex: int
    var runWhenDisabled: bool
    var interruptBehavior: InterruptionBehavior
    var requirements: set<nat>
    ghost var log: seq<Event>

    /** The aggregated flags always describe the children added so far. */
    ghost predicate Valid()
      reads this
    {
      && -1 <= currentCommandIndex <= |commands|
      && runWhenDisabled == AllRunWhenDisabled(commands)
      && interruptBehavior == Behavior(commands)
      && requirements == Requirements(commands)
    }

    /** `new ChezySequenceCommandGroup(commands...)`. */
    constructor (commands: seq<Command>)
      ensures Valid()
      ensures this.commands == commands && currentCommandIndex == -1 && log == []
    {
      this.commands := [];
      currentCommandIndex := -1;
      runWhenDisabled := true;
      interruptBehavior := kCancelIncoming;
      requirements := {};
      log := [];
      new;
      var _ := AddCommands(commands);
    }

    /** `addCommands(commands...)`: refused while the group is running;
        otherwise appends the children in argument order and folds their
        flags and requirements into the group's. */
    method AddCommands(newCommands: seq<Command>) returns (outcome: Outcome)
      requires Valid()
      modifies this
      ensures Valid()
      ensures outcome.IllegalState? <==> old(currentCommandIndex) != -1
      ensures outcome.IllegalState? ==> commands == old(commands)
      ensures outcome.Ok? ==> commands == old(commands) + newCommands
      ensures currentCommandIndex == old(currentCommandIndex) && log == old(log)
    {
      if currentCommandIndex != -1 {
        return IllegalState("Commands cannot be added to a composition while it's running");
      }
      for i := 0 to |newCommands|
        invariant Valid() && currentCommandIndex == -1 && log == old(log)
        invariant commands == old(commands) + newCommands[..i]
      {
        var command := newCommands[i];
        ghost var before := commands;
        assert newCommands[..i + 1] == newCommands[..i] + [command];
        commands := commands + [command];
        assert forall c :: c in commands <==> c in before || c == command;
        requirements := requirements + command.requirements;
        runWhenDisabled := runWhenDisabled && command.runsWhenDisabled;
        if command.interruptionBehavior == kCancelSelf {
          interruptBehavior := kCancelSelf;
        }
      }
      assert newCommands[..|newCommands|] == newCommands;
      return Ok;
    }

    /** `initialize()`: start at the first child, initializing it if there is one. */
    method Initialize()
      requires Valid()
      modifies this`currentCommandIndex, this`log
      ensures Valid() && currentCommandIndex == 0
      ensures log == old(log) + if commands == [] then [] else [Initialized(0)]
    {
      currentCommandIndex := 0;
      if commands != [] {
        log := log + [Initialized(0)];
      }
    }

    /** `execute()`: run the current child; when it reports finished, end it,
        move to the next child, initialize it and run it in the same call.
        On a non-empty group the scheduler calls it only while the index is a
        valid child position. */
    method Execute(finished: nat -> bool)
      requires Valid()
      requires commands == [] || 0 <= currentCommandIndex < |commands|
      modifies this`currentCommandIndex, this`log
      ensures Valid()
      ensures commands == [] ==> currentCommandIndex == old(currentCommandIndex) && log == old(log)
      ensures commands != [] ==>
                && currentCommandIndex == Advance(old(currentCommandIndex), |commands|, finished)
                && log == old(log) + ExecuteLog(old(currentCommandIndex), |commands|, finished)
      ensures old(currentCommandIndex) <= currentCommandIndex <= |commands|
      decreases |commands| - currentCommandIndex
    {
      if commands == [] {
        return;
      }
      var current := currentCommandIndex;
      ghost var log0 := log;
      log := log + [Executed(current)];
      if finished(current) {
        log := log + [Ended(current, false)];
        currentCommandIndex := currentCommandIndex + 1;
        AdvanceStep(current, |commands|, finished);
        if currentCommandIndex < |commands| {
          log := log + [Initialized(currentCommandIndex)];
          ghost var log1 := log;
          assert log1 == log0 + [Executed(current), Ended(current, false), Initialized(current + 1)];
          Execute(finished);
          assert log == log0 + ExecuteLog(current, |commands|, finished);
        } else {
          assert log == log0 + ExecuteLog(current, |commands|, finished);
          assert Advance(currentCommandIndex, |commands|, finished) == currentCommandIndex;
        }
      } else {
        assert log == log0 + ExecuteLog(current, |commands|, finished);
        assert Advance(current, |commands|, finished) == current;
      }
    }

    /** `end(interrupted)`: when interrupted, end the running child as
        interrupted; in every case go back to not running. */
    method End(interrupted: bool)
      requires Valid()
      modifies this`currentCommandIndex, this`log
      ensures Valid() && currentCommandIndex == -1
      ensures log == old(log) + if interrupted && 0 <= old(currentCommandIndex) < |commands|
                                then [Ended(old(currentCommandIndex), true)] else []
    {
      if interrupted && commands != [] && currentCommandIndex > -1 && currentCommandIndex < |commands| {
        log := log + [Ended(currentCommandIndex, true)];
      }
      currentCommandIndex := -1;
    }

    /** `isFinished()`: every child has finished; an empty group is finished
        as soon as it is initialized. */
    predicate IsFinished()
      reads this
      ensures IsFinished() ==> currentCommandIndex != -1
      ensures commands == [] ==> (IsFinished() <==> currentCommandIndex == 0)
    {
      currentCommandIndex == |commands|
    }

    function RunsWhenDisabled(): (r: bool)
      requires Valid()
      reads this
      ensures r <==> forall c :: c in commands ==> c.runsWhenDisabled
    {
      runWhenDisabled
    }

    function GetInterruptionBehavior(): (b: InterruptionBehavior)
      requires Valid()
      reads this
      ensures b == kCancelSelf <==> exists c :: c in commands && c.interruptionBehavior == kCancelSelf
    {
      interruptBehavior
    }
  }

  /** An empty group is finished right after `initialize`, before any `execute`. */
  method EmptyGroupFinishesAtOnce() returns (finished: bool)
    ensures finished
  {
    var group := new SequenceCommandGroup([]);
    group.Initialize();
    finished := group.IsFinished();
  }

  /** Children that finish as soon as they run all run, one after another, in
      the first `execute`: each is run and ended as not interrupted, and the
      group is finished after a single scheduler loop. */
  method InstantChildrenFinishInOneLoop(commands: seq<Command>) returns (group: SequenceCommandGroup, finished: bool)
    requires commands != []
    ensures group.commands == commands && finished == group.IsFinished() && finished
    ensures forall j :: 0 <= j < |commands| ==> Executed(j) in group.log && Ended(j, false) in group.log
  {
    group := new SequenceCommandGroup(commands);
    group.Initialize();
    var always := (k: nat) => true;
    group.Execute(always);
    AdvanceIsFirstUnfinished(0, |commands|, always);
    var head := [Initialized(0)];
    var run := ExecuteLog(0, |commands|, always);
    assert group.log == head + run;
    forall j | 0 <= j < |commands|
      ensures Executed(j) in group.log && Ended(j, false) in group.log
    {
      ExecuteLogRuns(0, |commands|, always, j);
      ExecuteLogEnds(0, |commands|, always, j, false);
      InConcat(Executed(j), head, run);
      InConcat(Ended(j, false), head, run);
    }
    finished := group.IsFinished();
  }
}
