/**
 * The retry wrapper of the database module: a call is attempted up to three times, and
 * retried only after a connection-class error, waiting 1000 ms, then 2000 ms. The wrapped
 * call is an oracle giving the outcome of each attempt; the waits are recorded in a ghost log.
 */
module Db {
  import opened Wrappers
  import opened Text

  /** A thrown error: its `code` and `message` properties, either of which may be absent. */
  datatype DbError = DbError(code: Option<string>, message: Option<string>)

  const ConnectTimeoutCode: string := "UND_ERR_CONNECT_TIMEOUT"
  const FetchFailed: string := "fetch failed"

  /** A connection-class error: the connect-timeout code, or a message mentioning `fetch failed`. */
  predicate IsConnectionError(e: DbError) {
    e.code == Some(ConnectTimeoutCode) || (e.message.Some? && Contains(e.message.value, FetchFailed))
  }

  /** The outcome of one attempt of the wrapped call. */
  datatype Attempt<T> = Succeeded(value: T) | Threw(error: DbError)

  /** The outcome of the wrapped call as its caller sees it. */
  datatype CallResult<T> = Returned(value: T) | Rethrown(error: DbError)

  /** What a run of the wrapper does: its result, how many attempts it made, and the waits between them. */
  datatype RetryRun<T> = RetryRun(result: CallResult<T>, attempts: nat, delays: seq<nat>)

  const MaxRetries: nat := 3
  const RetryDelayMs: nat := 1000

  predicate Retryable<T>(a: Attempt<T>) {
    a.Threw? && IsConnectionError(a.error)
  }

  function ResultOf<T>(a: Attempt<T>): CallResult<T> {
    match a
    case Succeeded(v) => Returned(v)
    case Threw(e) => Rethrown(e)
  }

  /** The wait before attempt `k + 1`: linear backoff. */
  function Backoff(k: nat): nat {
    RetryDelayMs * (k + 1)
  }

  /** The waits of the first `k` retries. */
  function Backoffs(k: nat): (r: seq<nat>)
    ensures |r| == k
    ensures forall j :: 0 <= j < k ==> r[j] == Backoff(j)
  {
    if k == 0 then [] else Backoffs(k - 1) + [Backoff(k - 1)]
  }

  /** The run of the wrapper from attempt `attempt` on, attempt by attempt. */
  function RetryFrom<T>(outcome: nat -> Attempt<T>, attempt: nat): (r: RetryRun<T>)
    requires attempt < MaxRetries
    ensures attempt < r.attempts <= MaxRetries
    ensures |r.delays| == r.attempts - attempt - 1
    decreases MaxRetries - attempt
  {
    if Retryable(outcome(attempt)) && attempt < MaxRetries - 1 then
      var rest := RetryFrom(outcome, attempt + 1);
      RetryRun(rest.result, rest.attempts, [Backoff(attempt)] + rest.delays)
    else
      RetryRun(ResultOf(outcome(attempt)), attempt + 1, [])
  }

  /** The run of the wrapper. */
  function Retry<T>(outcome: nat -> Attempt<T>): RetryRun<T> {
    RetryFrom(outcome, 0)
  }

  /**
   * The whole behaviour in one statement: if attempts before `k` all failed with connection
   * errors and attempt `k` is the last one or does not call for a retry, then attempt `k` decides
   * the result, `k + 1` attempts were made, and the waits were 1000, 2000, ... for the `k` retries.
   */
  lemma {:induction false} RetryStopsAt<T>(outcome: nat -> Attempt<T>, attempt: nat, k: nat)
    requires attempt <= k < MaxRetries
    requires forall j :: attempt <= j < k ==> Retryable(outcome(j))
    requires k == MaxRetries - 1 || !Retryable(outcome(k))
    ensures RetryFrom(outcome, attempt)
      == RetryRun(ResultOf(outcome(k)), k + 1, Backoffs(k)[attempt..])
    decreases k - attempt
  {
    if attempt < k {
      RetryStopsAt(outcome, attempt + 1, k);
      assert Backoffs(k)[attempt..] == [Backoff(attempt)] + Backoffs(k)[attempt + 1..];
    } else {
      assert Backoffs(k)[attempt..] == [];
    }
  }

  /** At most three attempts, and at least one. */
  lemma AttemptsBounded<T>(outcome: nat -> Attempt<T>)
    ensures 1 <= Retry(outcome).attempts <= MaxRetries
  {
  }

  /** A first-attempt success returns its value with no further attempt and no wait. */
  lemma FirstSuccess<T>(outcome: nat -> Attempt<T>)
    requires outcome(0).Succeeded?
    ensures Retry(outcome) == RetryRun(Returned(outcome(0).value), 1, [])
  {
  }

  /** A non-connection error is rethrown right after the attempt that produced it. */
  lemma NonConnectionErrorRethrown<T>(outcome: nat -> Attempt<T>, k: nat)
    requires k < MaxRetries
    requires forall j :: 0 <= j < k ==> Retryable(outcome(j))
    requires outcome(k).Threw? && !IsConnectionError(outcome(k).error)
    ensures Retry(outcome).result == Rethrown(outcome(k).error)
    ensures Retry(outcome).attempts == k + 1
  {
    RetryStopsAt(outcome, 0, k);
  }

  /** Three connection errors in a row: the last one is thrown, after waits of 1000 and 2000 ms only. */
  lemma ThreeConnectionErrors<T>(outcome: nat -> Attempt<T>)
    requires forall j :: 0 <= j < MaxRetries ==> Retryable(outcome(j))
    ensures Retry(outcome) == RetryRun(Rethrown(outcome(2).error), 3, [1000, 2000])
  {
    RetryStopsAt(outcome, 0, 2);
  }

  /**
   * `createRetryWrapper(fn)(...args)`: the `for` loop over `attempt`, keeping the last error.
   * `outcome(k)` is what the `k`-th call of `fn(...args)` does.
   */
  method CallWithRetry<T>(outcome: nat -> Attempt<T>) returns (result: CallResult<T>, attempts: nat, ghost delays: seq<nat>)
    ensures result == Retry(outcome).result && attempts == Retry(outcome).attempts
    ensures delays == Retry(outcome).delays
  {
    var lastError: Option<DbError> := None;
    delays := [];
    var attempt: nat := 0;
    while attempt < MaxRetries
      invariant attempt <= MaxRetries
      invariant forall j :: 0 <= j < attempt ==> Retryable(outcome(j))
      invariant attempt < MaxRetries ==> delays == Backoffs(attempt)
      invariant attempt == MaxRetries ==> delays == Backoffs(MaxRetries - 1)
      invariant attempt > 0 ==> lastError == Some(outcome(attempt - 1).error)
      decreases MaxRetries - attempt
    {
      var a := outcome(attempt);
      if a.Succeeded? {
        RetryStopsAt(outcome, 0, attempt);
        return Returned(a.value), attempt + 1, delays;
      }
      lastError := Some(a.error);
      if IsConnectionError(a.error) {
        if attempt < MaxRetries - 1 {
          delays := delays + [Backoff(attempt)];
          attempt := attempt + 1;
          continue;
        }
      } else {
        RetryStopsAt(outcome, 0, attempt);
        return Rethrown(a.error), attempt + 1, delays;
      }
      attempt := attempt + 1;
    }
    RetryStopsAt(outcome, 0, MaxRetries - 1);
    assert Backoffs(MaxRetries - 1)[0..] == delays;
    result := Rethrown(lastError.value);
    attempts := MaxRetries;
  }
}
