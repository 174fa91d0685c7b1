/** StateUtils: building the per-state table of tunable numbers from the
    default setpoints of a set of states. */
module StateUtils {

  datatype Option<T> = None | Some(value: T)

  /** `LoggedTunableNumber(key, defaultValue)`, as constructed here. */
  datatype TunableNumber = TunableNumber(key: string, defaultValue: real)

  datatype Result<T> = Success(value: T) | IllegalArgument(message: string)

  /** `State.get()` as the interface defines it: no default setpoint. */
  function DefaultGet<S>(state: S): (r: Option<real>)
    ensures !r.Some?
  {
    None
  }

  /** The table built from `states`: an entry for each state whose `get()` is
      present, keyed "<key>/<state name>" and holding that default. */
  function TunableMap<S(==)>(key: string, states: seq<S>, get: S -> Option<real>, name: S -> string)
    : map<S, TunableNumber>
  {
    map s | s in states && get(s).Some? :: TunableNumber(key + "/" + name(s), get(s).value)
  }

  /** The key set of the table is exactly the given states that carry a default,
      and each entry holds the state's default under its derived key. */
  lemma TunableMapEntries<S>(key: string, states: seq<S>, get: S -> Option<real>, name: S -> string, s: S)
    ensures s in TunableMap(key, states, get, name) <==> s in states && get(s).Some?
    ensures s in TunableMap(key, states, get, name) ==>
              TunableMap(key, states, get, name)[s] == TunableNumber(key + "/" + name(s), get(s).value)
  {
  }

  /** States that keep the interface's default `get()` are never in the table. */
  lemma DefaultGetGivesNoEntries<S>(key: string, states: seq<S>, name: S -> string)
    ensures TunableMap(key, states, DefaultGet, name) == map[]
  {
  }

  /** The loop both overloads run: put an entry for each state with a default. */
  method FillMap<S(==)>(key: string, states: seq<S>, get: S -> Option<real>, name: S -> string)
    returns (m: map<S, TunableNumber>)
    ensures m == TunableMap(key, states, get, name)
  {
    m := map[];
    for i := 0 to |states|
      invariant m == TunableMap(key, states[..i], get, name)
    {
      var state := states[i];
      var stateValue := get(state);
      assert states[..i + 1] == states[..i] + [state];
      if stateValue.Some? {
        m := m[state := TunableNumber(key + "/" + name(state), stateValue.value)];
      }
    }
    assert states[..|states|] == states;
  }

  /** `createTunableNumberMap(key, states...)`: refuses an empty argument list. */
  method CreateTunableNumberMap<S(==)>(key: string, states: seq<S>, get: S -> Option<real>, name: S -> string)
    returns (r: Result<map<S, TunableNumber>>)
    ensures r.IllegalArgument? <==> states == []
    ensures r.Success? ==> r.value == TunableMap(key, states, get, name)
  {
    if |states| != 0 {
      var m := FillMap(key, states, get, name);
      return Success(m);
    } else {
      return IllegalArgument("Must provide at least one state to create a map.");
    }
  }

  /** `createTunableNumberMap(key, stateEnum)`: the same filter over every
      constant of the enum (`constants` is `getEnumConstants()`); never fails. */
  method CreateTunableNumberMapForEnum<S(==)>(key: string, constants: seq<S>, get: S -> Option<real>,
                                              name: S -> string)
    returns (m: map<S, TunableNumber>)
    ensures m == TunableMap(key, constants, get, name)
  {
    m := FillMap(key, constants, get, name);
  }
}
