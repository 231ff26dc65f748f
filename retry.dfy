/** `retry(max_attempts, delay)` (stuff/practice.py): call the wrapped
    function up to `max_attempts` times, return the first value it produces,
    and re-raise the last exception once every attempt has failed. The
    wrapped function is given as the outcome of each numbered attempt; the
    `delay` sleep and the warning lines are not modelled. */
module Retry {
  /** What one call of the wrapped function does. */
  datatype Attempt<V, E> = Returned(value: V) | Raised(error: E)

  /** What the wrapper does: returns a value, re-raises an exception, or,
      when `max_attempts <= 0` and the loop never runs, returns `None`. */
  datatype RetryOutcome<V, E> = Value(value: V) | Reraised(error: E) | NoValue

  ghost predicate AllFailed<V, E>(callee: nat -> Attempt<V, E>, n: nat) {
    forall i: nat :: i < n ==> callee(i).Raised?
  }

  method Retry<V, E>(maxAttempts: int := 3, callee: nat -> Attempt<V, E>)
    returns (r: RetryOutcome<V, E>, calls: nat)
    ensures calls <= (if maxAttempts < 0 then 0 else maxAttempts)
    ensures maxAttempts <= 0 ==> r == NoValue && calls == 0
    ensures maxAttempts >= 1 ==> calls >= 1 && !r.NoValue?
    ensures r.Value? ==> calls >= 1 && callee(calls - 1) == Returned(r.value) && AllFailed(callee, calls - 1)
    ensures r.Reraised? ==> calls == maxAttempts && callee(calls - 1) == Raised(r.error) && AllFailed(callee, calls)
  {
    var attempt := 0;
    calls := 0;
    while attempt < maxAttempts
      invariant 0 <= attempt && calls == attempt
      invariant maxAttempts >= 1 ==> attempt < maxAttempts
      invariant maxAttempts <= 0 ==> attempt == 0
      invariant AllFailed(callee, attempt)
      decreases maxAttempts - attempt
    {
      var outcome := callee(attempt);
      calls := calls + 1;
      match outcome {
        case Returned(v) =>
          return Value(v), calls;
        case Raised(e) =>
          if attempt == maxAttempts - 1 {
            return Reraised(e), calls;
          }
      }
      attempt := attempt + 1;
    }
    r := NoValue;
  }

  /** A function that fails twice and then returns: with three attempts
      the wrapper returns its value on the third call. */
  method SucceedsOnThirdAttempt() returns (r: RetryOutcome<int, string>, calls: nat)
    ensures r == Value(42) && calls == 3
  {
    var flaky := (i: nat) => if i < 2 then Raised("timeout") else Returned(42);
    r, calls := Retry(3, flaky);
  }

  /** The same function with only two attempts: the second error is re-raised. */
  method GivesUpAfterTwo() returns (r: RetryOutcome<int, string>, calls: nat)
    ensures r == Reraised("timeout") && calls == 2
  {
    var flaky := (i: nat) => if i < 2 then Raised("timeout") else Returned(42);
    r, calls := Retry(2, flaky);
  }
}
