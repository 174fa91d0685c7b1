/** PhoenixSignalUtils: grouping of status signals per CAN bus for synchronised
    refresh, update-frequency setting, and a bounded retry on status codes. */
module PhoenixSignalUtils {
  import opened CANFrequencies
  import Retry

  /** A Phoenix status code; `isOK()` holds of the code OK (0) alone. */
  datatype StatusCode = StatusCode(value: int)
  {
    predicate IsOK() { value == 0 }
  }

  /** A device status signal, reduced to the update frequency applied to it. */
  class StatusSignal {
    var appliedUpdateFrequency: real

    constructor (frequency: real)
      ensures appliedUpdateFrequency == frequency
    {
      appliedUpdateFrequency := frequency;
    }

    method SetUpdateFrequency(frequency: real)
      modifies this
      ensures appliedUpdateFrequency == frequency
    {
      appliedUpdateFrequency := frequency;
    }
  }

  ghost predicate NoDuplicates<T>(s: seq<T>)
  {
    forall i, j :: 0 <= i < j < |s| ==> s[i] != s[j]
  }

  /** The list after registering `newSignals` into `signals`: each signal not
      already present is appended, in argument order. */
  function AppendNew<T(==)>(signals: seq<T>, newSignals: seq<T>): seq<T>
    decreases |newSignals|
  {
    if newSignals == [] then signals
    else
      var next := if newSignals[0] in signals then signals else signals + [newSignals[0]];
      AppendNew(next, newSignals[1..])
  }

  /** Registration keeps what was there, in its order. */
  lemma {:induction false} AppendNewKeepsPrefix<T>(signals: seq<T>, newSignals: seq<T>)
    ensures |signals| <= |AppendNew(signals, newSignals)|
    ensures AppendNew(signals, newSignals)[..|signals|] == signals
    decreases |newSignals|
  {
    if newSignals != [] {
      var next := if newSignals[0] in signals then signals else signals + [newSignals[0]];
      AppendNewKeepsPrefix(next, newSignals[1..]);
      assert AppendNew(signals, newSignals)[..|next|][..|signals|] == next[..|signals|];
    }
  }

  /** After registration exactly the old and the new signals are present. */
  lemma {:induction false} AppendNewElements<T>(signals: seq<T>, newSignals: seq<T>, x: T)
    ensures x in AppendNew(signals, newSignals) <==> x in signals || x in newSignals
    decreases |newSignals|
  {
    if newSignals != [] {
      var next := if newSignals[0] in signals then signals else signals + [newSignals[0]];
      AppendNewElements(next, newSignals[1..], x);
      assert newSignals == [newSignals[0]] + newSignals[1..];
    }
  }

  /** The list stays duplicate-free, even when the arguments repeat a signal. */
  lemma {:induction false} AppendNewNoDuplicates<T>(signals: seq<T>, newSignals: seq<T>)
    requires NoDuplicates(signals)
    ensures NoDuplicates(AppendNew(signals, newSignals))
    decreases |newSignals|
  {
    if newSignals != [] {
      var next := if newSignals[0] in signals then signals else signals + [newSignals[0]];
      AppendNewNoDuplicates(next, newSignals[1..]);
    }
  }

  /** Registering signals that are all present already changes nothing. */
  lemma {:induction false} AppendNewPresent<T>(signals: seq<T>, newSignals: seq<T>)
    requires forall x :: x in newSignals ==> x in signals
    ensures AppendNew(signals, newSignals) == signals
    decreases |newSignals|
  {
    if newSignals != [] {
      assert newSignals[0] in newSignals;
      forall x | x in newSignals[1..] ensures x in signals {
        assert x in newSignals;
      }
      AppendNewPresent(signals, newSignals[1..]);
    }
  }

  /** `BusSignals`: the signals registered for one CAN bus. */
  class BusSignals {
    const canBus: CANBus
    var signals: seq<StatusSignal>

    constructor (canBus: CANBus, initialSignals: seq<StatusSignal>)
      ensures this.canBus == canBus
      ensures signals == AppendNew([], initialSignals)
    {
      this.canBus := canBus;
      signals := [];
      new;
      RegisterSignals(initialSignals);
    }

    /** `registerSignals(newSignals)`: add each signal not yet in the list. */
    method RegisterSignals(newSignals: seq<StatusSignal>)
      modifies this`signals
      ensures signals == AppendNew(old(signals), newSignals)
    {
      for i := 0 to |newSignals|
        invariant AppendNew(signals, newSignals[i..]) == AppendNew(old(signals), newSignals)
      {
        var signal := newSignals[i];
        assert newSignals[i..][1..] == newSignals[i + 1..];
        if signal !in signals {
          signals := signals + [signal];
        }
      }
      assert newSignals[|newSignals|..] == [];
    }
  }

  /** The first group for `bus` in `groups`, or -1 when there is none. */
  function FindBus(groups: seq<BusSignals>, bus: CANBus): (i: int)
    ensures -1 <= i < |groups|
    ensures 0 <= i ==> groups[i].canBus == bus
    ensures forall k :: 0 <= k < |groups| && (i == -1 || k < i) ==> groups[k].canBus != bus
    decreases |groups|
  {
    if groups == [] then -1
    else if groups[0].canBus == bus then 0
    else
      var j := FindBus(groups[1..], bus);
      if j == -1 then -1 else j + 1
  }

  /** The static `busSignals` array: one group per CAN bus that ever had signals registered. */
  class SignalRegistry {
    var busSignals: seq<BusSignals>

    ghost function Groups(): set<BusSignals>
      reads this
    {
      set g | g in busSignals
    }

    /** At most one group per bus, and no group lists a signal twice. */
    ghost predicate Valid()
      reads this, Groups()
    {
      && (forall i, j :: 0 <= i < j < |busSignals| ==> busSignals[i].canBus != busSignals[j].canBus)
      && (forall i :: 0 <= i < |busSignals| ==> NoDuplicates(busSignals[i].signals))
    }

    constructor ()
      ensures Valid() && busSignals == []
    {
      busSignals := [];
    }

    /** The effect of the static `registerSignals(canBus, newSignals)`. */
    twostate predicate RegisterEffect(canBus: CANBus, newSignals: seq<StatusSignal>)
      reads this, Groups()
    {
      var i := FindBus(old(busSignals), canBus);
      if i != -1 then
        && busSignals == old(busSignals)
        && busSignals[i].signals == AppendNew(old(busSignals[i].signals), newSignals)
        && forall k :: 0 <= k < |busSignals| && k != i ==> busSignals[k].signals == old(busSignals[k].signals)
      else
        && |busSignals| == |old(busSignals)| + 1
        && busSignals[..|old(busSignals)|] == old(busSignals)
        && fresh(busSignals[|old(busSignals)|])
        && busSignals[|old(busSignals)|].canBus == canBus
        && busSignals[|old(busSignals)|].signals == AppendNew([], newSignals)
        && forall k :: 0 <= k < |old(busSignals)| ==> busSignals[k].signals == old(busSignals[k].signals)
    }

    /** `registerSignals(canBus, newSignals)`: register into the bus's group if it
        has one, otherwise append one new group for the bus at the end. */
    method RegisterSignals(canBus: CANBus, newSignals: seq<StatusSignal>)
      requires Valid()
      modifies this, Groups()
      ensures Valid()
      ensures RegisterEffect(canBus, newSignals)
    {
      var i := 0;
      while i < |busSignals|
        invariant 0 <= i <= |busSignals|
        invariant forall k :: 0 <= k < i ==> busSignals[k].canBus != canBus
      {
        var group := busSignals[i];
        if group.canBus == canBus {
          assert FindBus(busSignals, canBus) == i;
          AppendNewNoDuplicates(group.signals, newSignals);
          group.RegisterSignals(newSignals);
          return;
        }
        i := i + 1;
      }
      var group := new BusSignals(canBus, newSignals);
      AppendNewNoDuplicates([], newSignals);
      busSignals := busSignals + [group];
    }
  }

  /** A signal's update frequency after setting `target`: with keep-higher on
      it is set only when below the target, so it is never lowered. */
  function NewFrequency(applied: real, target: real, keepHigherFrequency: bool): (f: real)
    ensures f >= target
    ensures keepHigherFrequency ==> f >= applied && (f == applied || f == target)
    ensures !keepHigherFrequency ==> f == target
  {
    if keepHigherFrequency && !(applied < target) then applied else target
  }

  /** `BaseStatusSignal.setUpdateFrequencyForAll`: every signal gets `frequency`. */
  method SetUpdateFrequencyForAll(frequency: real, signals: seq<StatusSignal>)
    modifies set s | s in signals
    ensures forall s :: s in signals ==> s.appliedUpdateFrequency == frequency
  {
    for i := 0 to |signals|
      invariant forall s :: s in signals[..i] ==> s.appliedUpdateFrequency == frequency
    {
      signals[i].SetUpdateFrequency(frequency);
    }
    assert signals[..|signals|] == signals;
  }

  /** `setUpdateFrequency(canBus, frequency, keepHigherFrequency, signals)`. */
  method SetUpdateFrequency(canBus: CANBus, frequency: CANFrequency, keepHigherFrequency: bool,
                            signals: seq<StatusSignal>)
    modifies set s | s in signals
    ensures forall s :: s in signals ==>
              s.appliedUpdateFrequency
              == NewFrequency(old(s.appliedUpdateFrequency), frequency.GetFrequency(canBus), keepHigherFrequency)
  {
    var frequencyToSet := frequency.GetFrequency(canBus);
    if keepHigherFrequency {
      for i := 0 to |signals|
        invariant forall s :: s in signals[..i] ==>
                    s.appliedUpdateFrequency == NewFrequency(old(s.appliedUpdateFrequency), frequencyToSet, true)
        invariant forall s :: s in signals && s !in signals[..i] ==>
                    s.appliedUpdateFrequency == old(s.appliedUpdateFrequency)
      {
        var signal := signals[i];
        assert signals[..i + 1] == signals[..i] + [signal];
        if signal.appliedUpdateFrequency < frequencyToSet {
          signal.SetUpdateFrequency(frequencyToSet);
        }
      }
      assert signals[..|signals|] == signals;
    } else {
      SetUpdateFrequencyForAll(frequencyToSet, signals);
    }
  }

  /** The overload without the flag keeps the higher frequency. */
  method SetUpdateFrequencyKeepingHigher(canBus: CANBus, frequency: CANFrequency, signals: seq<StatusSignal>)
    modifies set s | s in signals
    ensures forall s :: s in signals ==>
              s.appliedUpdateFrequency
              == NewFrequency(old(s.appliedUpdateFrequency), frequency.GetFrequency(canBus), true)
  {
    SetUpdateFrequency(canBus, frequency, true, signals);
  }

  /** `setFrequencyAndRegister`: set the frequencies, then register the signals. */
  method SetFrequencyAndRegister(registry: SignalRegistry, canBus: CANBus, frequency: CANFrequency,
                                 keepHigherFrequency: bool, signals: seq<StatusSignal>)
    requires registry.Valid()
    modifies set s | s in signals
    modifies registry, registry.Groups()
    ensures registry.Valid()
    ensures forall s :: s in signals ==>
              s.appliedUpdateFrequency
              == NewFrequency(old(s.appliedUpdateFrequency), frequency.GetFrequency(canBus), keepHigherFrequency)
    ensures registry.RegisterEffect(canBus, signals)
  {
    SetUpdateFrequency(canBus, frequency, keepHigherFrequency, signals);
    registry.RegisterSignals(canBus, signals);
  }

  /** The overload without the flag keeps the higher frequency. */
  method SetFrequencyAndRegisterKeepingHigher(registry: SignalRegistry, canBus: CANBus,
                                              frequency: CANFrequency, signals: seq<StatusSignal>)
    requires registry.Valid()
    modifies set s | s in signals
    modifies registry, registry.Groups()
    ensures registry.Valid()
    ensures forall s :: s in signals ==>
              s.appliedUpdateFrequency
              == NewFrequency(old(s.appliedUpdateFrequency), frequency.GetFrequency(canBus), true)
    ensures registry.RegisterEffect(canBus, signals)
  {
    SetFrequencyAndRegister(registry, canBus, frequency, true, signals);
  }

  /** `tryUntilOk(maxAttempts, method)`: true iff one of the first `maxAttempts`
      calls returned an OK code; stops at the first one. */
  method TryUntilOk(maxAttempts: int, attempt: nat -> StatusCode) returns (ok: bool, calls: nat)
    ensures ok <==> exists k: nat :: k < maxAttempts && attempt(k).IsOK()
    ensures calls <= if maxAttempts > 0 then maxAttempts else 0
    ensures ok ==> 0 < calls && attempt(calls - 1).IsOK()
    ensures forall k: nat :: k < calls - 1 ==> !attempt(k).IsOK()
    ensures !ok ==> calls == if maxAttempts > 0 then maxAttempts else 0
  {
    ok, calls := Retry.TryUntilOk(maxAttempts, attempt, (c: StatusCode) => c.IsOK());
  }
}
