/** `retrying(error_clz, msg, max)`: a decorator that calls the wrapped
    callable again after an exception of class `error_clz` whose text
    matches `msg`, until the attempt count reaches `max`. */
module Retry {
  import opened Common

  /** A raised Python exception: the names of the classes it is an
      instance of, and its `str()`. */
  datatype PyError = PyError(classes: set<string>, text: string)

  /** What one call of the wrapped function does. */
  datatype Attempt<T> = Returns(value: T) | Throws(err: PyError)

  /** What the wrapper does: it returns the function's value, returns None
      without calling it, re-raises the function's exception, or raises
      MaxRetriesReached holding the last exception as `orig_ex`. */
  datatype Retried<T> = Done(value: T) | ReturnsNone | Reraised(err: PyError) | MaxRetriesReached(origEx: PyError)

  /** `except Exception`: only exceptions derived from Exception are caught. */
  predicate Caught(e: PyError) {
    "Exception" in e.classes
  }

  /** `_retry_on_exception`: `isinstance(error, error_clz)`, and then either
      no message (`msg` is None or empty) or `re.search(msg, str(error))`,
      the regular-expression search being the parameter `search`. */
  function RetryOnException(error: PyError, errorClz: string, msg: Option<string>,
                            search: (string, string) -> bool): (retry: bool)
    ensures retry <==> errorClz in error.classes
                       && (msg.None? || msg.value == "" || search(msg.value, error.text))
  {
    if errorClz in error.classes then
      if msg.Some? && msg.value != "" then
        search(msg.value, error.text)
      else
        true
    else
      false
  }

  /** `_raise_if_max_reached`: attempt i raises MaxRetriesReached wrapping
      `ex` once i reaches `max`. */
  function RaiseIfMaxReached(i: int, max: int, ex: PyError): (r: Option<PyError>)
    ensures r.Some? <==> i >= max
    ensures r.Some? ==> r.value == ex
  {
    if i >= max then Some(ex) else None
  }

  /** One call that fails in a way the wrapper retries. */
  predicate Retryable<T>(a: Attempt<T>, errorClz: string, msg: Option<string>, search: (string, string) -> bool) {
    a.Throws? && Caught(a.err) && RetryOnException(a.err, errorClz, msg, search)
  }

  /** How many calls a wrapper may make: `max`, and one when `max` is 0. */
  function Limit(max: nat): (n: nat)
    ensures n >= 1 && n >= max
  {
    if max == 0 then 1 else max
  }

  /** The decorated call. `run(k)` is what the k-th call of the function
      does; `calls` is the number of calls made. The sleep between calls is
      not modelled. */
  method Retrying<T>(errorClz: string, msg: Option<string>, max: int,
                     search: (string, string) -> bool, run: nat -> Attempt<T>)
    returns (r: Retried<T>, calls: nat)
    ensures max < 0 ==> r == ReturnsNone && calls == 0
    ensures max >= 0 ==> 1 <= calls <= Limit(max) && !r.ReturnsNone?
    ensures forall k :: 1 <= k < calls ==> Retryable(run(k), errorClz, msg, search)
    ensures r.Done? ==> run(calls) == Returns(r.value)
    ensures r.Reraised? ==> run(calls) == Throws(r.err) && !Retryable(run(calls), errorClz, msg, search)
    ensures r.MaxRetriesReached? ==> run(calls) == Throws(r.origEx) && Retryable(run(calls), errorClz, msg, search)
                                     && calls == Limit(max)
  {
    var i: int := 0;
    while i <= max
      invariant 0 <= i && (i == 0 || i < max)
      invariant forall k :: 1 <= k <= i ==> Retryable(run(k), errorClz, msg, search)
      decreases max - i
    {
      i := i + 1;
      match run(i)
      case Returns(v) =>
        return Done(v), i;
      case Throws(ex) =>
        if !Caught(ex) {
          return Reraised(ex), i;
        }
        var retry := RetryOnException(ex, errorClz, msg, search);
        if retry {
          var stop := RaiseIfMaxReached(i, max, ex);
          if stop.Some? {
            return MaxRetriesReached(stop.value), i;
          }
        } else {
          return Reraised(ex), i;
        }
    }
    return ReturnsNone, 0;
  }
}
