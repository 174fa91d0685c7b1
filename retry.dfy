/** The bounded retry loop shared by the two vendor helpers named `tryUntilOk`. */
module Retry {

  /** Call the supplier up to `maxAttempts` times, stopping at the first OK result.
      `attempt(k)` is what the supplier returns on its (k+1)-th call and `isOk`
      the vendor's test for success; `calls` is how many calls were made. */
  method TryUntilOk<E>(maxAttempts: int, attempt: nat -> E, isOk: E -> bool) returns (ok: bool, calls: nat)
    ensures ok <==> exists k: nat :: k < maxAttempts && isOk(attempt(k))
    ensures calls <= if maxAttempts > 0 then maxAttempts else 0
    ensures ok ==> 0 < calls && isOk(attempt(calls - 1))
    ensures forall k: nat :: k < calls - 1 ==> !isOk(attempt(k))
    ensures !ok ==> calls == if maxAttempts > 0 then maxAttempts else 0
  {
    var i := 0;
    while i < maxAttempts
      invariant i == 0 || 0 < i <= maxAttempts
      invariant forall k: nat :: k < i ==> !isOk(attempt(k))
    {
      if isOk(attempt(i)) {
        return true, i + 1;
      }
      i := i + 1;
    }
    return false, i;
  }
}
