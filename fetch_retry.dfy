/** `fetchWithRetry`: up to `retries + 1` fetches, each retryable failure
    followed by an exponentially growing wait. The network is an oracle:
    `fetchOutcome(k)` is what the k-th fetch (counted from 0) yields, and
    `delayAborted(k)` says whether the wait after it is cut short by an
    abort. The waits are returned instead of slept. */
module FetchRetry {
  import opened Wrappers

  /** What one `fetch` call does: answer with a status, fail at the network
      level with an error, or reject with an `AbortError`. */
  datatype FetchOutcome = Responded(status: int) | NetworkFailure(error: string) | FetchAborted

  /** How the whole call ends: a response handed back, an `AbortError`
      rethrown, or the last network error (or `Request failed`) thrown. */
  datatype RetryResult = Returned(status: int) | Aborted | Failed(error: string)

  /** The result together with how many fetches were made and the waits
      between them, in order. */
  datatype RetryTrace = RetryTrace(result: RetryResult, fetches: nat, waits: seq<int>)

  const DEFAULT_RETRIES: int := 0
  const DEFAULT_RETRY_DELAY_MS: int := 500
  const DEFAULT_BACKOFF_FACTOR: int := 2
  const REQUEST_FAILED: string := "Request failed"

  /** `RETRYABLE_STATUS`. */
  predicate Retryable(status: int) {
    status in {408, 425, 429, 500, 502, 503, 504}
  }

  /** `response.ok`. */
  predicate IsOk(status: int) {
    200 <= status <= 299
  }

  function Pow(base: int, exp: nat): int {
    if exp == 0 then 1 else base * Pow(base, exp - 1)
  }

  /** The wait before retry number `attempt + 1`. */
  function Backoff(retryDelayMs: int, backoffFactor: int, attempt: nat): int {
    retryDelayMs * Pow(backoffFactor, attempt)
  }

  /** One more fetch and wait in front of the rest of the run. */
  function Then(wait: int, rest: RetryTrace): RetryTrace {
    RetryTrace(rest.result, rest.fetches + 1, [wait] + rest.waits)
  }

  /** The run from `attempt` on, with `lastError` the most recent network
      error: the reference the loop is proved against. */
  function RunFrom(fetchOutcome: nat -> FetchOutcome, delayAborted: nat -> bool,
                   retries: int, retryDelayMs: int, backoffFactor: int,
                   attempt: nat, lastError: Option<string>): RetryTrace
    decreases if attempt <= retries then retries - attempt + 1 else 0
  {
    if attempt > retries then RetryTrace(Failed(lastError.GetOr(REQUEST_FAILED)), 0, [])
    else
      var wait := Backoff(retryDelayMs, backoffFactor, attempt);
      match fetchOutcome(attempt)
      case Responded(status) =>
        if !IsOk(status) && Retryable(status) && attempt < retries then
          if delayAborted(attempt) then RetryTrace(Aborted, 1, [wait])
          else Then(wait, RunFrom(fetchOutcome, delayAborted, retries, retryDelayMs, backoffFactor, attempt + 1, lastError))
        else RetryTrace(Returned(status), 1, [])
      case FetchAborted => RetryTrace(Aborted, 1, [])
      case NetworkFailure(error) =>
        if attempt >= retries then RetryTrace(Failed(error), 1, [])
        else if delayAborted(attempt) then RetryTrace(Aborted, 1, [wait])
        else Then(wait, RunFrom(fetchOutcome, delayAborted, retries, retryDelayMs, backoffFactor, attempt + 1, Some(error)))
  }

  /** The whole run, from the first attempt with no error yet. */
  function Run(fetchOutcome: nat -> FetchOutcome, delayAborted: nat -> bool,
               retries: int, retryDelayMs: int, backoffFactor: int): RetryTrace
  {
    RunFrom(fetchOutcome, delayAborted, retries, retryDelayMs, backoffFactor, 0, None)
  }

  /** The loop of `fetchWithRetry`, over `attempt` and `lastError`, with
      `continue` after a retryable status and `break` once the attempts are
      used up. It makes exactly the fetches and waits `Run` describes. */
  method FetchWithRetry(fetchOutcome: nat -> FetchOutcome, delayAborted: nat -> bool,
                        retries: int, retryDelayMs: int, backoffFactor: int)
    returns (result: RetryResult, fetches: nat, waits: seq<int>)
    ensures RetryTrace(result, fetches, waits) == Run(fetchOutcome, delayAborted, retries, retryDelayMs, backoffFactor)
  {
    var attempt: nat := 0;
    var lastError: Option<string> := None;
    fetches, waits := 0, [];
    while attempt <= retries
      invariant fetches == attempt && |waits| == attempt
      invariant Run(fetchOutcome, delayAborted, retries, retryDelayMs, backoffFactor)
        == Joined(fetches, waits, RunFrom(fetchOutcome, delayAborted, retries, retryDelayMs, backoffFactor, attempt, lastError))
      decreases retries - attempt + 1
    {
      var outcome := fetchOutcome(attempt);
      fetches := fetches + 1;
      var wait := Backoff(retryDelayMs, backoffFactor, attempt);
      match outcome {
        case Responded(status) =>
          if !IsOk(status) && Retryable(status) && attempt < retries {
            waits := waits + [wait];
            if delayAborted(attempt) {
              return Aborted, fetches, waits;
            }
            JoinedThen(fetches - 1, waits[..|waits| - 1], wait,
              RunFrom(fetchOutcome, delayAborted, retries, retryDelayMs, backoffFactor, attempt + 1, lastError));
            attempt := attempt + 1;
            continue;
          }
          return Returned(status), fetches, waits;
        case FetchAborted =>
          return Aborted, fetches, waits;
        case NetworkFailure(error) =>
          lastError := Some(error);
          if attempt >= retries {
            break;
          }
          waits := waits + [wait];
          if delayAborted(attempt) {
            return Aborted, fetches, waits;
          }
          JoinedThen(fetches - 1, waits[..|waits| - 1], wait,
            RunFrom(fetchOutcome, delayAborted, retries, retryDelayMs, backoffFactor, attempt + 1, lastError));
          attempt := attempt + 1;
      }
    }
    result := Failed(lastError.GetOr(REQUEST_FAILED));
  }

  /** A finished prefix of fetches and waits in front of the rest of a run. */
  function Joined(fetches: nat, waits: seq<int>, rest: RetryTrace): RetryTrace {
    RetryTrace(rest.result, fetches + rest.fetches, waits + rest.waits)
  }

  lemma JoinedThen(fetches: nat, waits: seq<int>, wait: int, rest: RetryTrace)
    ensures Joined(fetches, waits, Then(wait, rest)) == Joined(fetches + 1, waits + [wait], rest)
  {
    assert waits + ([wait] + rest.waits) == (waits + [wait]) + rest.waits;
  }

  /** Counted from `attempt`, a run makes at least one fetch and at most one
      per remaining attempt, and never more waits than fetches. */
  lemma {:induction false} RunFromBounds(fetchOutcome: nat -> FetchOutcome, delayAborted: nat -> bool,
                                         retries: int, retryDelayMs: int, backoffFactor: int,
                                         attempt: nat, lastError: Option<string>)
    requires attempt <= retries
    ensures var t := RunFrom(fetchOutcome, delayAborted, retries, retryDelayMs, backoffFactor, attempt, lastError);
      1 <= t.fetches <= retries - attempt + 1 && |t.waits| <= t.fetches
    decreases retries - attempt
  {
    var outcome := fetchOutcome(attempt);
    if attempt < retries && !delayAborted(attempt) {
      match outcome
      case Responded(status) =>
        if !IsOk(status) && Retryable(status) {
          RunFromBounds(fetchOutcome, delayAborted, retries, retryDelayMs, backoffFactor, attempt + 1, lastError);
        }
      case FetchAborted =>
      case NetworkFailure(error) =>
        RunFromBounds(fetchOutcome, delayAborted, retries, retryDelayMs, backoffFactor, attempt + 1, Some(error));
    }
  }

  /** At most `retries + 1` fetches; with a negative `retries` there are none
      and the call throws `Request failed`. */
  lemma FetchBound(fetchOutcome: nat -> FetchOutcome, delayAborted: nat -> bool,
                   retries: int, retryDelayMs: int, backoffFactor: int)
    ensures var t := Run(fetchOutcome, delayAborted, retries, retryDelayMs, backoffFactor);
      && (retries >= 0 ==> 1 <= t.fetches <= retries + 1 && |t.waits| <= t.fetches)
      && (retries < 0 ==> t == RetryTrace(Failed(REQUEST_FAILED), 0, []))
  {
    if retries >= 0 {
      RunFromBounds(fetchOutcome, delayAborted, retries, retryDelayMs, backoffFactor, 0, None);
    }
  }

  /** Wait k of `waits` is the backoff of attempt `first + k`. */
  predicate WaitsFollowBackoff(waits: seq<int>, retryDelayMs: int, backoffFactor: int, first: nat) {
    forall k :: 0 <= k < |waits| ==> waits[k] == Backoff(retryDelayMs, backoffFactor, first + k)
  }

  /** The k-th wait of a run starting at `attempt` is the backoff for
      attempt `attempt + k`. */
  lemma {:induction false} WaitsFrom(fetchOutcome: nat -> FetchOutcome, delayAborted: nat -> bool,
                                     retries: int, retryDelayMs: int, backoffFactor: int,
                                     attempt: nat, lastError: Option<string>)
    ensures WaitsFollowBackoff(RunFrom(fetchOutcome, delayAborted, retries, retryDelayMs, backoffFactor, attempt, lastError).waits,
                               retryDelayMs, backoffFactor, attempt)
    decreases if attempt <= retries then retries - attempt + 1 else 0
  {
    var t := RunFrom(fetchOutcome, delayAborted, retries, retryDelayMs, backoffFactor, attempt, lastError);
    if attempt < retries && !delayAborted(attempt) && !fetchOutcome(attempt).FetchAborted? {
      var next := if fetchOutcome(attempt).NetworkFailure? then Some(fetchOutcome(attempt).error) else lastError;
      var rest := RunFrom(fetchOutcome, delayAborted, retries, retryDelayMs, backoffFactor, attempt + 1, next);
      WaitsFrom(fetchOutcome, delayAborted, retries, retryDelayMs, backoffFactor, attempt + 1, next);
      if t.waits == [Backoff(retryDelayMs, backoffFactor, attempt)] + rest.waits {
        forall k | 1 <= k < |t.waits|
          ensures t.waits[k] == Backoff(retryDelayMs, backoffFactor, attempt + k)
        {
          assert t.waits[k] == rest.waits[k - 1];
          assert rest.waits[k - 1] == Backoff(retryDelayMs, backoffFactor, attempt + 1 + (k - 1));
          assert attempt + 1 + (k - 1) == attempt + k;
        }
      }
    }
  }

  /** The wait before retry k is `retryDelayMs * backoffFactor^k`. */
  lemma WaitSchedule(fetchOutcome: nat -> FetchOutcome, delayAborted: nat -> bool,
                     retries: int, retryDelayMs: int, backoffFactor: int)
    ensures var t := Run(fetchOutcome, delayAborted, retries, retryDelayMs, backoffFactor);
      forall k :: 0 <= k < |t.waits| ==> t.waits[k] == retryDelayMs * Pow(backoffFactor, k)
  {
    var t := Run(fetchOutcome, delayAborted, retries, retryDelayMs, backoffFactor);
    WaitsFrom(fetchOutcome, delayAborted, retries, retryDelayMs, backoffFactor, 0, None);
    forall k | 0 <= k < |t.waits| ensures t.waits[k] == retryDelayMs * Pow(backoffFactor, k) {
      assert t.waits[k] == Backoff(retryDelayMs, backoffFactor, 0 + k);
    }
  }

  /** A response that is OK, or whose status is not retryable, is handed
      back as it is, at whatever attempt it arrives, with no further fetch. */
  lemma FinalResponseReturned(fetchOutcome: nat -> FetchOutcome, delayAborted: nat -> bool,
                              retries: int, retryDelayMs: int, backoffFactor: int,
                              attempt: nat, lastError: Option<string>)
    requires attempt <= retries
    requires fetchOutcome(attempt).Responded?
    requires var s := fetchOutcome(attempt).status; IsOk(s) || !Retryable(s) || attempt == retries
    ensures RunFrom(fetchOutcome, delayAborted, retries, retryDelayMs, backoffFactor, attempt, lastError)
         == RetryTrace(Returned(fetchOutcome(attempt).status), 1, [])
  {
  }

  /** An abort, from the fetch or from a wait, ends the run at once. */
  lemma AbortStopsRun(fetchOutcome: nat -> FetchOutcome, delayAborted: nat -> bool,
                      retries: int, retryDelayMs: int, backoffFactor: int,
                      attempt: nat, lastError: Option<string>)
    requires attempt <= retries
    requires fetchOutcome(attempt).FetchAborted? || (attempt < retries && delayAborted(attempt))
    requires fetchOutcome(attempt).Responded? ==> Retryable(fetchOutcome(attempt).status) && !IsOk(fetchOutcome(attempt).status)
    ensures var t := RunFrom(fetchOutcome, delayAborted, retries, retryDelayMs, backoffFactor, attempt, lastError);
      t.result == Aborted && t.fetches == 1
  {
  }

  /** When every fetch fails at the network level and no wait is aborted,
      all `retries + 1` fetches are made and the last error is thrown. */
  lemma {:induction false} ExhaustedNetworkErrors(fetchOutcome: nat -> FetchOutcome, delayAborted: nat -> bool,
                                                  retries: int, retryDelayMs: int, backoffFactor: int,
                                                  attempt: nat, lastError: Option<string>)
    requires attempt <= retries
    requires forall k :: attempt <= k <= retries ==> fetchOutcome(k).NetworkFailure?
    requires forall k :: attempt <= k < retries ==> !delayAborted(k)
    ensures var t := RunFrom(fetchOutcome, delayAborted, retries, retryDelayMs, backoffFactor, attempt, lastError);
      t.result == Failed(fetchOutcome(retries).error) && t.fetches == retries - attempt + 1
    decreases retries - attempt
  {
    if attempt < retries {
      ExhaustedNetworkErrors(fetchOutcome, delayAborted, retries, retryDelayMs, backoffFactor,
                             attempt + 1, Some(fetchOutcome(attempt).error));
    }
  }

  /** With the defaults (no retries) there is exactly one fetch and no wait. */
  lemma DefaultsFetchOnce(fetchOutcome: nat -> FetchOutcome, delayAborted: nat -> bool)
    ensures var t := Run(fetchOutcome, delayAborted, DEFAULT_RETRIES, DEFAULT_RETRY_DELAY_MS, DEFAULT_BACKOFF_FACTOR);
      t.fetches == 1 && t.waits == []
  {
  }

  /** Three 503s with two retries: three fetches, waits of 500 and 1000 ms,
      and the last 503 handed back. */
  lemma ThreeUnavailable(delayAborted: nat -> bool)
    requires !delayAborted(0) && !delayAborted(1)
    ensures Run(_ => Responded(503), delayAborted, 2, 500, 2) == RetryTrace(Returned(503), 3, [500, 1000])
  {
    var f: nat -> FetchOutcome := _ => Responded(503);
    assert RunFrom(f, delayAborted, 2, 500, 2, 2, None) == RetryTrace(Returned(503), 1, []);
    assert Pow(2, 1) == 2;
    assert RunFrom(f, delayAborted, 2, 500, 2, 1, None) == RetryTrace(Returned(503), 2, [1000]);
  }

  /** A 404 is never retried, however many retries are allowed. */
  lemma NotFoundNotRetried(fetchOutcome: nat -> FetchOutcome, delayAborted: nat -> bool,
                           retries: int, retryDelayMs: int, backoffFactor: int)
    requires retries >= 0 && fetchOutcome(0) == Responded(404)
    ensures Run(fetchOutcome, delayAborted, retries, retryDelayMs, backoffFactor) == RetryTrace(Returned(404), 1, [])
  {
  }
}
