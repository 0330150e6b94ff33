/**
 * The Google Ads provider (`GoogleAdsManager`): its circuit breaker, the retry
 * loop around the remote call, the all-`None` fallbacks of `get_bulk_metrics`
 * and the index mapping from the response to the keywords.
 *
 * The remote call is an abstract outcome per attempt: `call(i)` is what the
 * `i`-th attempt returns or raises. Sleeps are reported, not performed.
 */
module Ads {
  import opened Wrappers
  import opened Seqs
  import opened CircuitBreaker

  const Threshold: nat := 5
  const Cooldown: int := 300
  const MaxRetries: nat := 3
  const Backoff: nat := 2

  /** What one attempt of a remote call does: return, raise `GoogleAdsException`, or raise anything else. */
  datatype Outcome<T> = Returned(value: T) | AdsException | OtherError

  /** What `_execute_with_retry` ends with: the result, `CircuitBreakerError`, or `AdsAPIError`. */
  datatype CallResult<T> = Ok(value: T) | CircuitOpen(remaining: int) | AdsApiError

  /** A run of the retry loop: its result, the failure counter after it, the attempts made and the sleeps between them. */
  datatype RetryRun<T> = RetryRun(result: Option<T>, failures: nat, attempts: nat, sleeps: seq<nat>)

  function Pow(base: nat, exp: nat): nat {
    if exp == 0 then 1 else base * Pow(base, exp - 1)
  }

  /**
   * The retry loop of `_execute_with_retry` from attempt `attempt` on, with
   * `failures` consecutive failures so far. A return resets the counter and
   * ends the loop; every raise adds one failure; `GoogleAdsException` is
   * retried after a sleep of `backoff ^ attempt` unless it was the last
   * attempt, any other exception ends the loop.
   */
  function Retry<T>(call: nat -> Outcome<T>, attempt: nat, failures: nat, maxRetries: nat, backoff: nat): RetryRun<T>
    decreases maxRetries - attempt
  {
    if attempt >= maxRetries then RetryRun(None, failures, attempt, [])
    else match call(attempt)
      case Returned(v) => RetryRun(Some(v), 0, attempt + 1, [])
      case OtherError => RetryRun(None, failures + 1, attempt + 1, [])
      case AdsException =>
        var rest := Retry(call, attempt + 1, failures + 1, maxRetries, backoff);
        if attempt < maxRetries - 1 then rest.(sleeps := [Pow(backoff, attempt)] + rest.sleeps) else rest
  }

  /**
   * The retry loop makes at most `maxRetries` attempts; every attempt before
   * the last raised `GoogleAdsException`; a result means the last attempt
   * returned it and the counter is 0; no result means the attempts ran out or
   * the last one raised something else, and each attempt added one failure.
   * There is one sleep between consecutive attempts and none after the last,
   * the `j`-th lasting `backoff ^ j`.
   */
  lemma {:induction false} RetrySpec<T>(call: nat -> Outcome<T>, attempt: nat, failures: nat, maxRetries: nat, backoff: nat)
    requires attempt <= maxRetries
    ensures var r := Retry(call, attempt, failures, maxRetries, backoff);
      attempt <= r.attempts <= maxRetries
      && (r.attempts == attempt <==> attempt == maxRetries)
      && (forall j :: attempt <= j < r.attempts - 1 ==> call(j) == AdsException)
      && (r.result.Some? ==> r.failures == 0 && call(r.attempts - 1) == Returned(r.result.value))
      && (r.result.None? ==> r.failures == failures + (r.attempts - attempt)
                             && (r.attempts == maxRetries || call(r.attempts - 1) == OtherError))
      && |r.sleeps| == (if r.attempts == attempt then 0 else r.attempts - 1 - attempt)
      && (forall j :: 0 <= j < |r.sleeps| ==> r.sleeps[j] == Pow(backoff, attempt + j))
    decreases maxRetries - attempt
  {
    if attempt < maxRetries && call(attempt) == AdsException {
      RetrySpec(call, attempt + 1, failures + 1, maxRetries, backoff);
    }
  }

  /** One `GoogleAdsException` step of the retry loop, seen from the sleeps made so far. */
  lemma RetryAfterException<T>(call: nat -> Outcome<T>, attempt: nat, failures: nat, sleeps: seq<nat>)
    requires attempt < MaxRetries && call(attempt) == AdsException
    ensures var here := Retry(call, attempt, failures, MaxRetries, Backoff);
      var rest := Retry(call, attempt + 1, failures + 1, MaxRetries, Backoff);
      var slept := sleeps + (if attempt < MaxRetries - 1 then [Pow(Backoff, attempt)] else []);
      here.(sleeps := sleeps + here.sleeps) == rest.(sleeps := slept + rest.sleeps)
  {
  }

  /**
   * The metric `_get_keyword_metrics` reports for the keyword at position `i`
   * of a response whose `j`-th result carries `response[j]` (`None` when the
   * result has no metrics): the monthly searches when they are non-zero, 0
   * when missing or zero, and `None` past the end of the response.
   */
  function MetricAt(response: seq<Option<int>>, i: nat): (r: Option<int>)
    ensures r.None? <==> i >= |response|
    ensures i < |response| && response[i].Some? && response[i].value != 0 ==> r == response[i]
    ensures i < |response| && (response[i].None? || response[i].value == 0) ==> r == Some(0)
  {
    if i >= |response| then None
    else if response[i].Some? && response[i].value != 0 then response[i]
    else Some(0)
  }

  /** `_get_keyword_metrics`: the keyword at position `i` gets the metric of the `i`-th result; a later repeat wins. */
  function KeywordMetrics(keywords: seq<string>, response: seq<Option<int>>): map<string, Option<int>> {
    if keywords == [] then map[]
    else
      var n := |keywords| - 1;
      KeywordMetrics(keywords[..n], response)[keywords[n] := MetricAt(response, n)]
  }

  /** The metrics have exactly the requested keywords as keys. */
  lemma {:induction false} KeywordMetricsKeys(keywords: seq<string>, response: seq<Option<int>>)
    ensures KeywordMetrics(keywords, response).Keys == Elements(keywords)
  {
    if keywords != [] {
      var n := |keywords| - 1;
      KeywordMetricsKeys(keywords[..n], response);
      SplitLast(keywords);
      ElementsConcat(keywords[..n], [keywords[n]]);
      assert Elements([keywords[n]]) == {keywords[n]};
    }
  }

  /** Position `i` holds the last occurrence of its keyword. */
  predicate LastOccurrence(keywords: seq<string>, i: nat)
    requires i < |keywords|
  {
    forall j :: i < j < |keywords| ==> keywords[j] != keywords[i]
  }

  /**
   * Each keyword gets the metric at the position of its last occurrence, so a
   * keyword that is not repeated later gets the result at its own position.
   */
  lemma {:induction false} KeywordMetricsAt(keywords: seq<string>, response: seq<Option<int>>, i: nat)
    requires i < |keywords| && LastOccurrence(keywords, i)
    ensures keywords[i] in KeywordMetrics(keywords, response)
    ensures KeywordMetrics(keywords, response)[keywords[i]] == MetricAt(response, i)
  {
    var n := |keywords| - 1;
    if i < n {
      var init := keywords[..n];
      assert init[i] == keywords[i];
      assert LastOccurrence(init, i) by {
        forall j | i < j < |init| ensures init[j] != init[i] {
          assert init[j] == keywords[j];
        }
      }
      KeywordMetricsAt(init, response, i);
    }
  }

  /** For keywords without repeats, every keyword's metric comes from its own position. */
  lemma DistinctKeywordMetrics(keywords: seq<string>, response: seq<Option<int>>)
    requires Distinct(keywords)
    ensures KeywordMetrics(keywords, response).Keys == Elements(keywords)
    ensures forall i :: 0 <= i < |keywords| ==> KeywordMetrics(keywords, response)[keywords[i]] == MetricAt(response, i)
  {
    KeywordMetricsKeys(keywords, response);
    forall i | 0 <= i < |keywords| ensures KeywordMetrics(keywords, response)[keywords[i]] == MetricAt(response, i) {
      KeywordMetricsAt(keywords, response, i);
    }
  }

  /** The fallback of `get_bulk_metrics`: every keyword mapped to `None`. */
  function AllNone(keywords: seq<string>): (r: map<string, Option<int>>)
    ensures r.Keys == Elements(keywords)
    ensures forall k :: k in r ==> r[k] == None
  {
    map k | k in keywords :: None
  }

  /** The remote call `get_bulk_metrics` retries: each attempt maps a returned response to the keywords. */
  function MetricsCall(keywords: seq<string>, remote: nat -> Outcome<seq<Option<int>>>): nat -> Outcome<map<string, Option<int>>> {
    (attempt: nat) =>
      match remote(attempt)
      case Returned(response) => Returned(KeywordMetrics(keywords, response))
      case AdsException => AdsException
      case OtherError => OtherError
  }

  class GoogleAdsManager {
    var failures: nat
    var openedAt: Option<int>
    /** Whether the client could be created from the credentials. */
    const initialized: bool

    function BreakerState(): Breaker
      reads this
    {
      Breaker(failures, openedAt)
    }

    constructor (initialized: bool)
      ensures BreakerState() == Breaker(0, None) && this.initialized == initialized
    {
      failures := 0;
      openedAt := None;
      this.initialized := initialized;
    }

    /** `_check_circuit_breaker` at time `now`. */
    method CheckCircuitBreaker(now: int) returns (gate: Gate)
      modifies this
      ensures (gate, BreakerState()) == Check(old(BreakerState()), now, Threshold, Cooldown)
    {
      if failures >= Threshold {
        if openedAt == None {
          openedAt := Some(now);
        }
        var elapsed := now - openedAt.value;
        if elapsed < Cooldown {
          return Reject(Cooldown - elapsed);
        } else {
          openedAt := None;
          failures := 0;
        }
      }
      gate := Pass;
    }

    /**
     * `_execute_with_retry` at time `now`: one breaker check before the first
     * attempt, then the retry loop; `sleeps` are the backoff sleeps it made.
     */
    method ExecuteWithRetry<T>(call: nat -> Outcome<T>, now: int) returns (r: CallResult<T>, sleeps: seq<nat>)
      modifies this
      ensures var checked := Check(old(BreakerState()), now, Threshold, Cooldown);
        if checked.0.Reject? then r == CircuitOpen(checked.0.remaining) && sleeps == [] && BreakerState() == checked.1
        else
          var run := Retry(call, 0, checked.1.failures, MaxRetries, Backoff);
          r == (if run.result.Some? then Ok(run.result.value) else AdsApiError)
          && failures == run.failures && openedAt == checked.1.openedAt && sleeps == run.sleeps
    {
      var gate := CheckCircuitBreaker(now);
      if gate.Reject? {
        return CircuitOpen(gate.remaining), [];
      }
      ghost var start := failures;
      sleeps := [];
      var attempt := 0;
      while attempt < MaxRetries
        invariant attempt <= MaxRetries && openedAt == old(Check(BreakerState(), now, Threshold, Cooldown)).1.openedAt
        invariant var rest := Retry(call, attempt, failures, MaxRetries, Backoff);
          Retry(call, 0, start, MaxRetries, Backoff) == rest.(sleeps := sleeps + rest.sleeps)
        decreases MaxRetries - attempt
      {
        match call(attempt)
        case Returned(v) =>
          failures := 0;
          return Ok(v), sleeps;
        case OtherError =>
          failures := failures + 1;
          return AdsApiError, sleeps;
        case AdsException =>
          RetryAfterException(call, attempt, failures, sleeps);
          failures := failures + 1;
          if attempt < MaxRetries - 1 {
            sleeps := sleeps + [Pow(Backoff, attempt)];
          }
          attempt := attempt + 1;
      }
      r := AdsApiError;
    }

    /**
     * `get_bulk_metrics` at time `now`, where `remote(i)` is the outcome of the
     * `i`-th attempt of the metrics request. Without a client it answers
     * `None` for every keyword and calls nothing; any failure, including an
     * open breaker, also gives `None` for every keyword. With a client, the
     * breaker ends as the retried call leaves it.
     */
    method GetBulkMetrics(keywords: seq<string>, remote: nat -> Outcome<seq<Option<int>>>, now: int)
      returns (metrics: map<string, Option<int>>)
      modifies this
      ensures metrics.Keys == Elements(keywords)
      ensures !initialized ==> metrics == AllNone(keywords) && BreakerState() == old(BreakerState())
      ensures initialized ==>
        var checked := Check(old(BreakerState()), now, Threshold, Cooldown);
        var run := Retry(MetricsCall(keywords, remote), 0, checked.1.failures, MaxRetries, Backoff);
        metrics == if checked.0.Pass? && run.result.Some? then run.result.value else AllNone(keywords)
    ensures initialized ==>
      var checked := Check(old(BreakerState()), now, Threshold, Cooldown);
      var run := Retry(MetricsCall(keywords, remote), 0, checked.1.failures, MaxRetries, Backoff);
      if checked.0.Reject? then BreakerState() == checked.1
      else failures == run.failures && openedAt == checked.1.openedAt
    {
      if !initialized {
        return AllNone(keywords);
      }
      var result, _ := ExecuteWithRetry(MetricsCall(keywords, remote), now);
      if result.Ok? {
        metrics := result.value;
        RetryReturnsMetrics(keywords, remote, Check(old(BreakerState()), now, Threshold, Cooldown).1.failures);
      } else {
        metrics := AllNone(keywords);
      }
    }
  }

  /** A result of the retried metrics call is the keyword mapping of some response. */
  lemma RetryReturnsMetrics(keywords: seq<string>, remote: nat -> Outcome<seq<Option<int>>>, failures: nat)
    ensures var run := Retry(MetricsCall(keywords, remote), 0, failures, MaxRetries, Backoff);
      run.result.Some? ==> run.result.value.Keys == Elements(keywords)
  {
    var call := MetricsCall(keywords, remote);
    RetrySpec(call, 0, failures, MaxRetries, Backoff);
    var run := Retry(call, 0, failures, MaxRetries, Backoff);
    if run.result.Some? {
      match remote(run.attempts - 1)
      case Returned(response) => KeywordMetricsKeys(keywords, response);
      case AdsException =>
      case OtherError =>
    }
  }
}
