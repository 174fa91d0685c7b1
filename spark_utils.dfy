/** SparkUtils: value-or-default reads from a REV SPARK motor controller and a
    bounded retry on REV error codes. */
module SparkUtils {
  import Retry

  /** `REVLibError`: kOk, or one of the library's failure codes. */
  datatype REVLibError = kOk | Failed(code: nat)

  /** The calls `ifOkOrDefault` makes, in order. */
  datatype Call = SupplierCalled | LastErrorChecked | ErrorMethodRun

  /** A SPARK as `ifOkOrDefault` sees it: the error its last read left behind.
      The calls made on it, on the supplier and on the error callback are
      recorded, in order, in the ghost `log`. */
  class Spark {
    var lastError: REVLibError
    ghost var log: seq<Call>

    constructor (lastError: REVLibError)
      ensures this.lastError == lastError && log == []
    {
      this.lastError := lastError;
      log := [];
    }

    /** One call of the supplier: it reads the device, which returns `value`
        and leaves `errorAfterRead` as the SPARK's last error. */
    method Supplier<T>(value: T, errorAfterRead: REVLibError) returns (v: T)
      modifies this
      ensures v == value && lastError == errorAfterRead
      ensures log == old(log) + [SupplierCalled]
    {
      lastError := errorAfterRead;
      log := log + [SupplierCalled];
      v := value;
    }

    /** `spark.getLastError()`. */
    method GetLastError() returns (e: REVLibError)
      modifies this`log
      ensures e == lastError
      ensures log == old(log) + [LastErrorChecked]
    {
      log := log + [LastErrorChecked];
      e := lastError;
    }

    /** One run of the `errorMethod` callback; what it does is the caller's. */
    method RunErrorMethod()
      modifies this`log
      ensures log == old(log) + [ErrorMethodRun]
    {
      log := log + [ErrorMethodRun];
    }
  }

  /** `ifOkOrDefault(spark, supplier, defaultValue)`, for any value type (the
      Java overloads for boolean, double and a generic T have the same body).
      The supplier returns `supplied` and leaves `errorAfterRead` behind. */
  method IfOkOrDefault<T>(spark: Spark, supplied: T, errorAfterRead: REVLibError, defaultValue: T)
    returns (result: T)
    modifies spark
    ensures result == if errorAfterRead == kOk then supplied else defaultValue
    ensures spark.log == old(spark.log) + [SupplierCalled, LastErrorChecked]
    ensures spark.lastError == errorAfterRead
  {
    var value := spark.Supplier(supplied, errorAfterRead);
    var error := spark.GetLastError();
    if error == kOk {
      return value;
    } else {
      return defaultValue;
    }
  }

  /** `ifOkOrDefault(spark, supplier, defaultValue, errorMethod)`: the same
      selection, and `errorMethod` runs once when the default is returned. */
  method IfOkOrDefaultWithCallback<T>(spark: Spark, supplied: T, errorAfterRead: REVLibError, defaultValue: T)
    returns (result: T)
    modifies spark
    ensures result == if errorAfterRead == kOk then supplied else defaultValue
    ensures spark.log == old(spark.log) + [SupplierCalled, LastErrorChecked]
                         + (if errorAfterRead == kOk then [] else [ErrorMethodRun])
    ensures spark.lastError == errorAfterRead
  {
    var value := spark.Supplier(supplied, errorAfterRead);
    var error := spark.GetLastError();
    if error == kOk {
      return value;
    } else {
      spark.RunErrorMethod();
      return defaultValue;
    }
  }

  /** Both forms, run on the same reading, return the same value. */
  method CallbackDoesNotChangeValue<T>(supplied: T, errorBefore: REVLibError, errorAfterRead: REVLibError,
                                       defaultValue: T)
    returns (plain: T, withCallback: T)
    ensures plain == withCallback
    ensures errorAfterRead == kOk ==> plain == supplied
  {
    var first := new Spark(errorBefore);
    plain := IfOkOrDefault(first, supplied, errorAfterRead, defaultValue);
    var second := new Spark(errorBefore);
    withCallback := IfOkOrDefaultWithCallback(second, supplied, errorAfterRead, defaultValue);
  }

  /** `tryUntilOk(maxAttempts, method)`: true iff one of the first `maxAttempts`
      calls returned kOk; stops at the first one; no call when `maxAttempts <= 0`. */
  method TryUntilOk(maxAttempts: int, attempt: nat -> REVLibError) returns (ok: bool, calls: nat)
    ensures ok <==> exists k: nat :: k < maxAttempts && attempt(k) == kOk
    ensures calls <= if maxAttempts > 0 then maxAttempts else 0
    ensures ok ==> 0 < calls && attempt(calls - 1) == kOk
    ensures forall k: nat :: k < calls - 1 ==> attempt(k) != kOk
    ensures !ok ==> calls == if maxAttempts > 0 then maxAttempts else 0
  {
    ok, calls := Retry.TryUntilOk(maxAttempts, attempt, (e: REVLibError) => e == kOk);
  }
}
