/** LoggedNumberWrapper: a dashboard number with change detection kept
    separately for each caller id. */
module LoggedNumber {

  /** One `hasChanged(id)` call when `get()` returns `current`: the answer,
      and the map of last seen values afterwards. */
  function HasChangedStep(lastValues: map<int, real>, id: int, current: real): (r: (bool, map<int, real>))
    ensures r.0 <==> id !in lastValues || lastValues[id] != current
    ensures r.0 ==> r.1 == lastValues[id := current]
    ensures !r.0 ==> r.1 == lastValues
  {
    if id !in lastValues || current != lastValues[id] then (true, lastValues[id := current])
    else (false, lastValues)
  }

  /** After any call the caller's entry holds the current value, and no other
      caller's entry has changed. */
  lemma HasChangedRecords(lastValues: map<int, real>, id: int, current: real, other: int)
    requires other != id
    ensures var next := HasChangedStep(lastValues, id, current).1;
            && id in next && next[id] == current
            && (other in next <==> other in lastValues)
            && (other in lastValues ==> next[other] == lastValues[other])
  {
  }

  /** The first call for an unseen id reports a change. */
  lemma FirstCallChanged(lastValues: map<int, real>, id: int, current: real)
    requires id !in lastValues
    ensures HasChangedStep(lastValues, id, current).0
  {
  }

  /** Asking again before the value changes reports no change and keeps the map. */
  lemma RepeatCallUnchanged(lastValues: map<int, real>, id: int, current: real)
    ensures var next := HasChangedStep(lastValues, id, current).1;
            HasChangedStep(next, id, current) == (false, next)
  {
  }

  class LoggedNumberWrapper {
    /** The value each caller id saw at its last `hasChanged`. */
    var lastValues: map<int, real>

    constructor ()
      ensures lastValues == map[]
    {
      lastValues := map[];
    }

    /** `hasChanged(id)`, where `current` is what `get()` returns now. */
    method HasChanged(id: int, current: real) returns (changed: bool)
      modifies this
      ensures (changed, lastValues) == HasChangedStep(old(lastValues), id, current)
    {
      var currentValue := current;
      if id !in lastValues || currentValue != lastValues[id] {
        lastValues := lastValues[id := currentValue];
        return true;
      }
      return false;
    }
  }
}
