/** `solve_captcha_retry`: run a coroutine up to five times, return the
    first result it produces, and re-raise the last exception if every
    attempt raised.

    The wrapped coroutine's behaviour is an input: `attempts[i]` is what
    its (i+1)-th invocation returns or raises. */
module Retry {
  import opened Errors

  /** How many times the wrapper invokes the coroutine at most. */
  const MaxAttempts: nat := 5

  /** The outcome of one wrapped call and how many invocations it took. */
  datatype Run<T> = Run(result: Result<T>, calls: nat)

  /** The wrapper's loop from attempt number `i` (counting from 0) on. */
  function RetryFrom<T>(attempts: seq<Result<T>>, i: nat): (r: Run<T>)
    requires i < MaxAttempts <= |attempts|
    ensures i < r.calls <= MaxAttempts
    ensures r.result == attempts[r.calls - 1]
    ensures forall j :: i <= j < r.calls - 1 ==> attempts[j].Err?
    ensures r.result.Err? ==> r.calls == MaxAttempts
    decreases MaxAttempts - i
  {
    if attempts[i].Ok? || i == MaxAttempts - 1 then Run(attempts[i], i + 1)
    else RetryFrom(attempts, i + 1)
  }

  /** The wrapper: at most five invocations; the first success is returned;
      after five failures the fifth exception is re-raised unchanged. */
  function Retry<T>(attempts: seq<Result<T>>): (r: Run<T>)
    requires MaxAttempts <= |attempts|
    ensures 1 <= r.calls <= MaxAttempts
    ensures r.result == attempts[r.calls - 1]
    ensures forall j :: 0 <= j < r.calls - 1 ==> attempts[j].Err?
    ensures r.result.Err? ==> r.calls == MaxAttempts
  {
    RetryFrom(attempts, 0)
  }

  /** The wrapper's `for` loop as written: `lastExc` remembers the most
      recent exception, and is re-raised once the five attempts are used up. */
  method RetryLoop<T>(attempts: seq<Result<T>>) returns (result: Result<T>, calls: nat)
    requires MaxAttempts <= |attempts|
    ensures Run(result, calls) == Retry(attempts)
  {
    var lastExc: Option<Error> := None;
    calls := 0;
    while calls < MaxAttempts
      invariant calls <= MaxAttempts
      invariant forall j :: 0 <= j < calls ==> attempts[j].Err?
      invariant calls == 0 <==> lastExc.None?
      invariant calls > 0 ==> lastExc == Some(attempts[calls - 1].error)
      invariant calls < MaxAttempts ==> Retry(attempts) == RetryFrom(attempts, calls)
    {
      var attempt := attempts[calls];
      calls := calls + 1;
      if attempt.Ok? {
        result := attempt;
        return;
      }
      lastExc := Some(attempt.error);
    }
    // after five failed attempts `lastExc` is always set
    result := Err(lastExc.value);
  }
}
