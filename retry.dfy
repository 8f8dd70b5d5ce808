/** The retry loop of src/utils/retry.ts. The wrapped call is a function
    from the attempt index (0 for the first call) to what that call
    returned or threw; the sleeps are recorded as a sequence of delays in
    milliseconds instead of being waited out. */
module Retry {
  import opened Common
  import opened Types

  /** What withRetry throws: the last attempt's error, or the
      "exhausted retries" error when no attempt was allowed. */
  datatype RetryError = Thrown(fault: Fault) | Exhausted(operation: string)

  const DEFAULT_MAX_RETRIES: int := 3
  const DEFAULT_BASE_DELAY_MS: int := 1000

  /** Index of the last call made when calls are tried from k on: the
      first success, or the last allowed attempt. */
  function LastCall<T>(fn: nat -> Result<T, Fault>, k: nat, maxRetries: nat): (last: nat)
    requires k < maxRetries
    ensures k <= last < maxRetries
    decreases maxRetries - k
  {
    if fn(k).Ok? || k == maxRetries - 1 then k else LastCall(fn, k + 1, maxRetries)
  }

  /** How many times the call is made. */
  function CallsMade<T>(fn: nat -> Result<T, Fault>, maxRetries: int): nat {
    if maxRetries <= 0 then 0 else LastCall(fn, 0, maxRetries) + 1
  }

  /** The number of calls is the position of the first success, counted
      from one, or maxRetries when every call fails, and never more than
      maxRetries: every call but the last failed, and the last either
      succeeded or used the final attempt. */
  lemma {:induction false} CallsMadeIsFirstSuccess<T>(fn: nat -> Result<T, Fault>, maxRetries: int)
    ensures var calls := CallsMade(fn, maxRetries);
      && (maxRetries <= 0 ==> calls == 0)
      && (maxRetries > 0 ==> 1 <= calls <= maxRetries)
      && (forall j :: 0 <= j < calls - 1 ==> fn(j).Err?)
      && (calls > 0 ==> fn(calls - 1).Ok? || calls == maxRetries)
  {
    if maxRetries > 0 {
      LastCallSkipsFailures(fn, 0, maxRetries);
    }
  }

  lemma {:induction false} LastCallSkipsFailures<T>(fn: nat -> Result<T, Fault>, k: nat, maxRetries: nat)
    requires k < maxRetries
    ensures forall j :: k <= j < LastCall(fn, k, maxRetries) ==> fn(j).Err?
    ensures fn(LastCall(fn, k, maxRetries)).Ok? || LastCall(fn, k, maxRetries) == maxRetries - 1
    decreases maxRetries - k
  {
    if !(fn(k).Ok? || k == maxRetries - 1) {
      LastCallSkipsFailures(fn, k + 1, maxRetries);
    }
  }

  /** What withRetry resolves or rejects with. */
  function RetryResult<T>(fn: nat -> Result<T, Fault>, maxRetries: int, name: string): Result<T, RetryError> {
    var calls := CallsMade(fn, maxRetries);
    if calls == 0 then Err(Exhausted(name))
    else if fn(calls - 1).Ok? then Ok(fn(calls - 1).value)
    else Err(Thrown(fn(calls - 1).error))
  }

  function Pow2(n: nat): (p: nat)
    ensures p >= 1
  {
    if n == 0 then 1 else 2 * Pow2(n - 1)
  }

  /** The rate-limit hint of an error, in seconds: `data.retryAfter` when
      it is given and non-zero, else the `retry-after` header. */
  function RetryAfterHint(f: Fault): Option<int> {
    if f.dataRetryAfter.Some? && f.dataRetryAfter.value != 0 then f.dataRetryAfter
    else f.headerRetryAfter
  }

  /** The wait after failed attempt `attempt` (counted from one): the
      hint in milliseconds, otherwise exponential backoff. */
  function DelayAfter(f: Fault, attempt: nat, baseDelayMs: int): (d: int)
    ensures RetryAfterHint(f).Some? ==> d == RetryAfterHint(f).value * 1000
    ensures RetryAfterHint(f).None? ==> d == Pow2(attempt) * baseDelayMs
  {
    match RetryAfterHint(f)
    case Some(s) => s * 1000
    case None => Pow2(attempt) * baseDelayMs
  }

  /** withRetry: call `fn` until it succeeds, at most maxRetries times,
      sleeping between failures and never after the last one. */
  method WithRetry<T>(fn: nat -> Result<T, Fault>, maxRetries: int, baseDelayMs: int, name: string)
    returns (r: Result<T, RetryError>, calls: nat, delays: seq<int>)
    ensures calls == CallsMade(fn, maxRetries)
    ensures r == RetryResult(fn, maxRetries, name)
    ensures |delays| == if calls == 0 then 0 else calls - 1
    ensures forall k :: 0 <= k < |delays| ==> fn(k).Err? && delays[k] == DelayAfter(fn(k).error, k + 1, baseDelayMs)
  {
    calls := 0;
    delays := [];
    var attempt := 1;
    while attempt <= maxRetries
      invariant 1 <= attempt && calls == attempt - 1
      invariant maxRetries > 0 ==> attempt <= maxRetries
      invariant maxRetries <= 0 ==> attempt == 1
      invariant forall j :: 0 <= j < calls ==> fn(j).Err?
      invariant |delays| == calls
      invariant forall k :: 0 <= k < |delays| ==> fn(k).Err? && delays[k] == DelayAfter(fn(k).error, k + 1, baseDelayMs)
      invariant maxRetries > 0 ==> calls <= LastCall(fn, 0, maxRetries)
      decreases maxRetries - attempt
    {
      var outcome := fn(attempt - 1);
      calls := calls + 1;
      LastCallSkipsFailures(fn, 0, maxRetries);
      if outcome.Ok? {
        LastCallIsFirstSuccess(fn, 0, maxRetries, attempt - 1);
        return Ok(outcome.value), calls, delays;
      }
      if attempt == maxRetries {
        return Err(Thrown(outcome.error)), calls, delays;
      }
      delays := delays + [DelayAfter(outcome.error, attempt, baseDelayMs)];
      attempt := attempt + 1;
    }
    r := Err(Exhausted(name));
  }

  lemma {:induction false} LastCallIsFirstSuccess<T>(fn: nat -> Result<T, Fault>, k: nat, maxRetries: nat, j: nat)
    requires k <= j < maxRetries && fn(j).Ok?
    requires forall i :: k <= i < j ==> fn(i).Err?
    ensures LastCall(fn, k, maxRetries) == j
    decreases j - k
  {
    if k < j {
      LastCallIsFirstSuccess(fn, k + 1, maxRetries, j);
    }
  }
}
