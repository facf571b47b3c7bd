/** `withRetry` (src/services/match.service.ts): calls an operation up to
    `maxRetries` times, waiting `delay * 2^i` after the i-th failure when
    another attempt follows, and returns the first success or rethrows the
    last error.  The operation is a parameter: `attempt(i)` is what the
    i-th call yields, so transient failures and a changing store are both
    covered; the waits are returned rather than slept. */
module Retry {
  import opened Common

  const DefaultMaxRetries: int := 3
  const DefaultDelay: int := 1000

  function Pow2(i: nat): nat {
    if i == 0 then 1 else 2 * Pow2(i - 1)
  }

  /** What `withRetry` settles on: a value, or the error it rethrows.  When no
      attempt was made the thrown value is `undefined`, modelled as `None`. */
  datatype Outcome<T> = Succeeded(value: T) | Failed(lastError: Option<string>)

  /** The outcome of the attempts from number `i` on, `last` being the error
      of the attempt before `i`. */
  function RetryFrom<T>(attempt: nat -> Result<T>, i: nat, maxRetries: int, last: Option<string>): Outcome<T>
    decreases maxRetries - i
  {
    if i >= maxRetries then Failed(last)
    else if attempt(i).Ok? then Succeeded(attempt(i).value)
    else RetryFrom(attempt, i + 1, maxRetries, Some(attempt(i).msg))
  }

  /** The retry loop.  `calls` counts the invocations of the operation and
      `waits` lists the back-off delays, in order. */
  method WithRetry<T>(attempt: nat -> Result<T>, maxRetries: int, delay: int)
    returns (out: Outcome<T>, calls: nat, waits: seq<int>)
    ensures out == RetryFrom(attempt, 0, maxRetries, None)
    ensures calls <= Max(maxRetries, 0)
    ensures forall k :: 0 <= k < calls - 1 ==> attempt(k).Err?
    ensures out.Succeeded? <==> calls > 0 && attempt(calls - 1).Ok?
    ensures out.Succeeded? ==> out.value == attempt(calls - 1).value
    ensures out.Failed? ==> calls == Max(maxRetries, 0)
    ensures out.Failed? ==> forall k :: 0 <= k < calls ==> attempt(k).Err?
    ensures out.Failed? && calls > 0 ==> out.lastError == Some(attempt(calls - 1).msg)
    ensures out.Failed? && calls == 0 ==> out.lastError == None
    ensures |waits| == (if out.Succeeded? then calls - 1 else Max(maxRetries - 1, 0))
    ensures forall k :: 0 <= k < |waits| ==> waits[k] == delay * Pow2(k)
  {
    calls := 0;
    waits := [];
    var last: Option<string> := None;
    var i: nat := 0;
    while i < maxRetries
      invariant i <= Max(maxRetries, 0)
      invariant calls == i
      invariant forall k :: 0 <= k < i ==> attempt(k).Err?
      invariant i == 0 ==> last == None
      invariant i > 0 ==> last == Some(attempt(i - 1).msg)
      invariant RetryFrom(attempt, 0, maxRetries, None) == RetryFrom(attempt, i, maxRetries, last)
      invariant |waits| == Max(0, Min(i, maxRetries - 1))
      invariant forall k :: 0 <= k < |waits| ==> waits[k] == delay * Pow2(k)
      decreases maxRetries - i
    {
      calls := calls + 1;
      var r := attempt(i);
      if r.Ok? {
        return Succeeded(r.value), calls, waits;
      }
      last := Some(r.msg);
      if i < maxRetries - 1 {
        waits := waits + [delay * Pow2(i)];
      }
      i := i + 1;
    }
    out := Failed(last);
  }

  lemma {:induction false} RetryKeepsFailing<T>(attempt: nat -> Result<T>, res: Result<T>, i: nat, maxRetries: int)
    requires res.Err?
    requires forall k :: attempt(k) == res
    ensures RetryFrom(attempt, i, maxRetries, Some(res.msg)) == Failed(Some(res.msg))
    decreases maxRetries - i
  {
    if i < maxRetries {
      RetryKeepsFailing(attempt, res, i + 1, maxRetries);
    }
  }

  /** Retrying an operation whose every call gives the same answer changes
      nothing but the number of calls: an application error such as "Match
      not found" is retried and then rethrown unchanged. */
  lemma RetryOfDeterministic<T>(attempt: nat -> Result<T>, res: Result<T>, maxRetries: int)
    requires maxRetries >= 1
    requires forall k :: attempt(k) == res
    ensures res.Ok? ==> RetryFrom(attempt, 0, maxRetries, None) == Succeeded(res.value)
    ensures res.Err? ==> RetryFrom(attempt, 0, maxRetries, None) == Failed(Some(res.msg))
  {
    if res.Err? {
      RetryKeepsFailing(attempt, res, 1, maxRetries);
    }
  }
}
