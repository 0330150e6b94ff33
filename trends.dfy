/**
 * The Google Trends provider (`GoogleTrendsManager`): its hourly request
 * window, its circuit breaker, the retry recursion around one keyword and the
 * batching of `get_bulk_trends`.
 *
 * Remote calls and clocks are parameters: `remote(k, i)` is what the `i`-th
 * attempt for keyword `k` returns or raises and `clock(k, i)` is the time of
 * that attempt's breaker check. Sleeps are reported, not performed.
 */
module Trends {
  import opened Wrappers
  import opened Seqs
  import opened CircuitBreaker

  const Threshold: nat := 3
  const Cooldown: int := 600
  /** Requests allowed per window. */
  const HourlyLimit: nat := 50
  /** Length of the request window in seconds. */
  const HourSeconds: int := 3600
  const MaxRetries: nat := 3
  /** Sleep before retry `i` after a quota-like error. */
  const RetryDelays: seq<nat> := [30, 60, 120, 300]
  /** Keywords per batch in `get_bulk_trends`. */
  const BatchSize: nat := 3

  /** The provider's counters: breaker, request window and successes in a row. */
  datatype TrendsState = TrendsState(failures: nat, openedAt: Option<int>, requestCount: nat,
                                     lastHourReset: int, inRow: nat)

  /** Why the check raised `TrendsAPIError`, with the seconds it asks to wait. */
  datatype Refusal = HourlyCapReached(remaining: int) | BreakerOpen(remaining: int)

  datatype Admission = Admitted | Refused(refusal: Refusal)

  /** What one attempt of the remote request does: produce a score or raise with a message. */
  datatype TrendOutcome = Score(value: real) | Raised(message: string)

  /** What `_get_single_trend_score_with_retry` ends with: a score, `None`, or `TrendQuotaExceededError`. */
  datatype FetchResult = Scored(score: real) | NoScore | QuotaExceeded

  /** One attempt either ends the fetch or asks for a retry. */
  datatype Step = Finish(result: FetchResult, state: TrendsState) | Again(state: TrendsState)

  /** A whole fetch: its result, the state after it, the retry sleeps and the attempts made so far counting from 0. */
  datatype FetchRun = FetchRun(result: FetchResult, state: TrendsState, delays: seq<nat>, attempts: nat)

  /** The first step of `_check_circuit_breaker`: a window at least an hour old is restarted at `now` with no requests counted. */
  function Windowed(st: TrendsState, now: int): TrendsState {
    if now - st.lastHourReset >= HourSeconds then st.(requestCount := 0, lastHourReset := now) else st
  }

  /**
   * The window step restarts an old window and leaves a younger one alone;
   * afterwards less than an hour of the window has passed, and nothing but
   * the window has changed.
   */
  lemma WindowedSpec(st: TrendsState, now: int)
    ensures var r := Windowed(st, now);
      (now - st.lastHourReset >= HourSeconds ==> r.requestCount == 0 && r.lastHourReset == now)
      && (now - st.lastHourReset < HourSeconds ==> r == st)
      && now - r.lastHourReset < HourSeconds
      && r.failures == st.failures && r.openedAt == st.openedAt && r.inRow == st.inRow
  {
  }

  /** `_check_circuit_breaker` at time `now`: the window step, the hourly cap, then the breaker. */
  function CheckSpec(st: TrendsState, now: int): (Admission, TrendsState) {
    var w := Windowed(st, now);
    if w.requestCount >= HourlyLimit then (Refused(HourlyCapReached(HourSeconds - (now - w.lastHourReset))), w)
    else
      var c := Check(Breaker(w.failures, w.openedAt), now, Threshold, Cooldown);
      match c.0
      case Reject(remaining) => (Refused(BreakerOpen(remaining)), w.(openedAt := c.1.openedAt))
      case Pass =>
        (Admitted, w.(failures := c.1.failures, openedAt := c.1.openedAt,
                      inRow := if w.failures >= Threshold then 0 else w.inRow))
  }

  /**
   * After the window step, a full window refuses with the positive number of
   * seconds left in it; otherwise the breaker is checked as for the Ads
   * provider, and a breaker that has cooled down is cleared together with the
   * successes in a row. The window fields only change through the window
   * step, and a refusal leaves the failures and successes alone.
   */
  lemma CheckSpecProps(st: TrendsState, now: int)
    ensures var r := CheckSpec(st, now);
      var w := Windowed(st, now);
      r.1.requestCount == w.requestCount && r.1.lastHourReset == w.lastHourReset
      && ((r.0.Refused? && r.0.refusal.HourlyCapReached?) <==> w.requestCount >= HourlyLimit)
      && (r.0.Refused? ==> r.0.refusal.remaining > 0)
      && ((r.0.Refused? && r.0.refusal.BreakerOpen?) <==>
            w.requestCount < HourlyLimit && Check(Breaker(st.failures, st.openedAt), now, Threshold, Cooldown).0.Reject?)
      && (r.0.Admitted? && st.failures >= Threshold ==> r.1 == w.(failures := 0, openedAt := None, inRow := 0))
      && (r.0.Admitted? && st.failures < Threshold ==> r.1 == w)
      && (r.0.Refused? ==> r.1.failures == st.failures && r.1.inRow == st.inRow)
  {
    WindowedSpec(st, now);
  }

  /** ASCII lower case; the other characters are unchanged. */
  function LowerChar(c: char): char {
    if 'A' <= c <= 'Z' then (c as int - 'A' as int + 'a' as int) as char else c
  }

  function Lower(s: string): (r: string)
    ensures |r| == |s|
  {
    seq(|s|, i requires 0 <= i < |s| => LowerChar(s[i]))
  }

  /** `s` starts with `sub`. */
  predicate StartsWith(s: string, sub: string) {
    |sub| <= |s| && s[..|sub|] == sub
  }

  /** Python's `sub in s`. */
  predicate Contains(s: string, sub: string)
    decreases |s|
  {
    StartsWith(s, sub) || (s != [] && Contains(s[1..], sub))
  }

  /** The quota test of the error handler: the lower-cased message mentions a CAPTCHA, 429, a quota or too many requests. */
  predicate QuotaLike(message: string) {
    var m := Lower(message);
    Contains(m, "captcha") || Contains(m, "429") || Contains(m, "quota") || Contains(m, "too many requests")
  }

  /** One attempt of `_get_single_trend_score_with_retry` with retry count `retryCount` at time `now`. */
  function Attempt(st: TrendsState, retryCount: nat, now: int, outcome: TrendOutcome): Step
  {
    var c := CheckSpec(st, now);
    if c.0.Refused? then Finish(NoScore, c.1.(failures := c.1.failures + 1, inRow := 0))
    else match outcome
      case Score(v) =>
        Finish(Scored(v), c.1.(failures := 0, requestCount := c.1.requestCount + 1, inRow := c.1.inRow + 1))
      case Raised(message) =>
        if !QuotaLike(message) then Finish(NoScore, c.1.(failures := c.1.failures + 1, inRow := 0))
        else if retryCount < MaxRetries then Again(c.1.(inRow := 0))
        else Finish(QuotaExceeded, c.1.(failures := Threshold))
  }

  /**
   * A refusal of the check is an ordinary error. A score clears the failures
   * and counts one more request and one more success in a row. A quota-like
   * error asks for a retry, clearing the successes in a row, until the
   * retries are used up; then the failures are set to the threshold and the
   * quota error is raised. Any other error adds one failure and clears the
   * successes in a row.
   */
  lemma AttemptSpec(st: TrendsState, retryCount: nat, now: int, outcome: TrendOutcome)
    ensures var s := Attempt(st, retryCount, now, outcome);
      var c := CheckSpec(st, now);
      (c.0.Refused? ==> s == Finish(NoScore, c.1.(failures := c.1.failures + 1, inRow := 0)))
      && (s.Finish? && s.result.Scored? ==>
            c.0.Admitted? && outcome == Score(s.result.score)
            && s.state == c.1.(failures := 0, requestCount := c.1.requestCount + 1, inRow := c.1.inRow + 1))
      && (s.Again? ==>
            retryCount < MaxRetries && c.0.Admitted? && outcome.Raised? && QuotaLike(outcome.message)
            && s.state == c.1.(inRow := 0))
      && (s.Finish? && s.result.QuotaExceeded? ==>
            retryCount >= MaxRetries && c.0.Admitted? && outcome.Raised? && QuotaLike(outcome.message)
            && s.state == c.1.(failures := Threshold))
      && (s.Finish? && s.result.NoScore? ==>
            s.state == c.1.(failures := c.1.failures + 1, inRow := 0)
            && (c.0.Refused? || (outcome.Raised? && !QuotaLike(outcome.message))))
  {
  }

  /** `_get_single_trend_score_with_retry(keyword, retryCount)`: attempts until one finishes, sleeping before each retry. */
  function Fetch(st: TrendsState, keyword: string, retryCount: nat,
                 clock: (string, nat) -> int, remote: (string, nat) -> TrendOutcome): FetchRun
    requires retryCount <= MaxRetries
    decreases MaxRetries - retryCount
  {
    match Attempt(st, retryCount, clock(keyword, retryCount), remote(keyword, retryCount))
    case Finish(result, after) => FetchRun(result, after, [], retryCount + 1)
    case Again(after) =>
      var rest := Fetch(after, keyword, retryCount + 1, clock, remote);
      rest.(delays := [RetryDelays[retryCount]] + rest.delays)
  }

  /**
   * A fetch makes at most `MaxRetries + 1` attempts, with the delay table's
   * sleep before each retry and none after the last attempt.
   */
  lemma {:induction false} FetchAttempts(st: TrendsState, keyword: string, retryCount: nat,
                                         clock: (string, nat) -> int, remote: (string, nat) -> TrendOutcome)
    requires retryCount <= MaxRetries
    ensures var r := Fetch(st, keyword, retryCount, clock, remote);
      retryCount < r.attempts <= MaxRetries + 1
      && |r.delays| == r.attempts - 1 - retryCount
      && (forall j :: 0 <= j < |r.delays| ==> r.delays[j] == RetryDelays[retryCount + j])
    decreases MaxRetries - retryCount
  {
    var s := Attempt(st, retryCount, clock(keyword, retryCount), remote(keyword, retryCount));
    if s.Again? {
      FetchAttempts(s.state, keyword, retryCount + 1, clock, remote);
    }
  }

  /** Every attempt of a fetch but the last ended in a quota-like error. */
  lemma {:induction false} FetchRetriesOnQuota(st: TrendsState, keyword: string, retryCount: nat,
                                               clock: (string, nat) -> int, remote: (string, nat) -> TrendOutcome)
    requires retryCount <= MaxRetries
    ensures var r := Fetch(st, keyword, retryCount, clock, remote);
      forall a :: retryCount <= a < r.attempts - 1 ==>
        remote(keyword, a).Raised? && QuotaLike(remote(keyword, a).message)
    decreases MaxRetries - retryCount
  {
    var s := Attempt(st, retryCount, clock(keyword, retryCount), remote(keyword, retryCount));
    if s.Again? {
      FetchRetriesOnQuota(s.state, keyword, retryCount + 1, clock, remote);
    }
  }

  /**
   * A score comes from the last attempt and leaves no failures; the quota
   * error needs every retry used and leaves the failures at the threshold;
   * `None` leaves at least one failure and no successes in a row.
   */
  lemma {:induction false} FetchResults(st: TrendsState, keyword: string, retryCount: nat,
                                        clock: (string, nat) -> int, remote: (string, nat) -> TrendOutcome)
    requires retryCount <= MaxRetries
    ensures var r := Fetch(st, keyword, retryCount, clock, remote);
      (r.result.Scored? ==> remote(keyword, r.attempts - 1) == Score(r.result.score) && r.state.failures == 0)
      && (r.result.QuotaExceeded? ==> r.attempts == MaxRetries + 1 && r.state.failures == Threshold)
      && (r.result.NoScore? ==> r.state.failures >= 1 && r.state.inRow == 0)
    decreases MaxRetries - retryCount
  {
    var s := Attempt(st, retryCount, clock(keyword, retryCount), remote(keyword, retryCount));
    if s.Again? {
      FetchResults(s.state, keyword, retryCount + 1, clock, remote);
    }
  }

  /** A refusal of the check ends the fetch at once with `None` and one more failure, without a retry. */
  lemma RefusalNotRetried(st: TrendsState, keyword: string, retryCount: nat,
                          clock: (string, nat) -> int, remote: (string, nat) -> TrendOutcome)
    requires retryCount <= MaxRetries
    requires CheckSpec(st, clock(keyword, retryCount)).0.Refused?
    ensures var c := CheckSpec(st, clock(keyword, retryCount)).1;
      Fetch(st, keyword, retryCount, clock, remote)
        == FetchRun(NoScore, c.(failures := c.failures + 1, inRow := 0), [], retryCount + 1)
  {
  }

  /** Python's `f"{n:.0f}"` for a whole number of seconds. */
  function Digits(n: nat): (r: string)
    ensures |r| >= 1
  {
    if n < 10 then [('0' as int + n) as char] else Digits(n / 10) + [('0' as int + n % 10) as char]
  }

  /** The text of the `TrendsAPIError` a refusal raises, with its countdown rendered as digits. */
  function RefusalMessage(r: Refusal): string {
    var countdown := if r.remaining < 0 then 0 else r.remaining;
    match r
    case HourlyCapReached(_) => "時間あたりのリクエスト制限に達しました。" + Digits(countdown) + "秒後に再試行してください"
    case BreakerOpen(_) => "サーキットブレーカーが開いています。" + Digits(countdown) + "秒後に再試行してください"
  }

  /**
   * The attempt as `_get_single_trend_score_with_retry` is written: the check's own `TrendsAPIError`
   * goes through the same message test as a remote error, so a refusal whose
   * text reads as quota-like is retried or ends in the quota error.
   */
  function AsWrittenAttempt(st: TrendsState, retryCount: nat, now: int, outcome: TrendOutcome): (s: Step)
    ensures CheckSpec(st, now).0.Admitted? ==> s == Attempt(st, retryCount, now, outcome)
    ensures var c := CheckSpec(st, now);
      c.0.Refused? && QuotaLike(RefusalMessage(c.0.refusal)) ==>
        (if retryCount < MaxRetries then s == Again(c.1.(inRow := 0)) else s == Finish(QuotaExceeded, c.1.(failures := Threshold)))
  {
    var c := CheckSpec(st, now);
    if c.0.Admitted? then Attempt(st, retryCount, now, outcome)
    else if !QuotaLike(RefusalMessage(c.0.refusal)) then Finish(NoScore, c.1.(failures := c.1.failures + 1, inRow := 0))
    else if retryCount < MaxRetries then Again(c.1.(inRow := 0))
    else Finish(QuotaExceeded, c.1.(failures := Threshold))
  }

  /** Lower case distributes over concatenation. */
  lemma LowerConcat(a: string, b: string)
    ensures Lower(a + b) == Lower(a) + Lower(b)
  {
  }

  /** An occurrence at position `i` is found by `Contains`. */
  lemma {:induction false} ContainsAt(s: string, sub: string, i: nat)
    requires i + |sub| <= |s| && s[i..i + |sub|] == sub
    ensures Contains(s, sub)
    decreases i
  {
    if i > 0 {
      assert s[1..][i - 1..i - 1 + |sub|] == s[i..i + |sub|];
      ContainsAt(s[1..], sub, i - 1);
    }
  }

  /**
   * With three failures recorded and the breaker opened 171 s ago, the check
   * refuses with 429 s left; the refusal's text contains "429", so the
   * attempt as written is retried where an ordinary error would have ended it.
   */
  lemma CountdownReadsAsQuota()
    ensures var st := TrendsState(Threshold, Some(0), 0, 0, 0);
      CheckSpec(st, 171).0 == Refused(BreakerOpen(429))
      && QuotaLike(RefusalMessage(BreakerOpen(429)))
      && AsWrittenAttempt(st, 0, 171, Score(1.0)).Again?
      && Attempt(st, 0, 171, Score(1.0)).Finish?
  {
    var st := TrendsState(Threshold, Some(0), 0, 0, 0);
    assert CheckSpec(st, 171).0 == Refused(BreakerOpen(429));
    var prefix := "サーキットブレーカーが開いています。";
    var suffix := "秒後に再試行してください";
    assert Digits(429) == "429" by {
      assert Digits(4) == "4";
      assert Digits(42) == "42";
    }
    var m := RefusalMessage(BreakerOpen(429));
    assert m == prefix + "429" + suffix;
    LowerConcat(prefix + "429", suffix);
    LowerConcat(prefix, "429");
    assert Lower("429") == "429";
    var lm := Lower(m);
    assert lm[|prefix|..|prefix| + 3] == "429";
    ContainsAt(lm, "429", |prefix|);
  }

  /** The score `get_bulk_trends` records for a fetch that did not end in the quota error. */
  function ScoreOf(r: FetchResult): Option<real> {
    if r.Scored? then Some(r.score) else None
  }

  /**
   * `{k: results.get(k) for k in keywords}`: exactly the requested keywords,
   * each with its result or `None`.
   */
  function Project(keywords: seq<string>, results: map<string, Option<real>>): (r: map<string, Option<real>>)
    ensures r.Keys == Elements(keywords)
    ensures forall k :: k in r ==> r[k] == Lookup(results, k)
  {
    map k | k in Elements(keywords) :: Lookup(results, k)
  }

  /** The keywords in `keywords`, in order, that have no saved result. */
  function Unsaved(keywords: seq<string>, saved: map<string, Option<real>>): (r: seq<string>)
    ensures Elements(r) == Elements(keywords) - saved.Keys
  {
    if keywords == [] then []
    else
      var rest := Unsaved(keywords[1..], saved);
      assert Elements(keywords) == {keywords[0]} + Elements(keywords[1..]);
      if keywords[0] in saved then rest
      else
        assert Elements([keywords[0]] + rest) == {keywords[0]} + Elements(rest);
        [keywords[0]] + rest
  }

  /**
   * `list(set(keywords) - set(saved))`: each requested keyword without a
   * saved result, once. Python leaves the order of the list to the set; the
   * model takes the order of first occurrence.
   */
  function Remaining(keywords: seq<string>, saved: map<string, Option<real>>): (r: seq<string>)
    ensures Distinct(r)
    ensures Elements(r) == Elements(keywords) - saved.Keys
  {
    Dedup(Unsaved(keywords, saved))
  }

  /** The batches joined back together. */
  function Flatten(batches: seq<seq<string>>): seq<string> {
    if batches == [] then [] else batches[0] + Flatten(batches[1..])
  }

  /** The batch slicing of `get_bulk_trends`: consecutive non-empty pieces of at most `BatchSize` keywords that join back to `s`. */
  function Chunks(s: seq<string>): (r: seq<seq<string>>)
    ensures Flatten(r) == s
    ensures forall i :: 0 <= i < |r| ==> 0 < |r[i]| <= BatchSize
    decreases |s|
  {
    if s == [] then []
    else if |s| <= BatchSize then [s]
    else
      var rest := Chunks(s[BatchSize..]);
      var r := [s[..BatchSize]] + rest;
      assert r[1..] == rest;
      assert s == s[..BatchSize] + s[BatchSize..];
      r
  }

  /** Joining the batches from `b` on is batch `b` followed by the later ones. */
  lemma FlattenFrom(batches: seq<seq<string>>, b: nat)
    requires b < |batches|
    ensures Flatten(batches[b..]) == batches[b] + Flatten(batches[b + 1..])
  {
    assert batches[b..][1..] == batches[b + 1..];
  }

  /** What `get_bulk_trends` has gathered: the state, the results, the failed keywords and, after a quota error, the position it stopped at. */
  datatype Collected = Collected(state: TrendsState, results: map<string, Option<real>>,
                                 failed: set<string>, stoppedAt: Option<nat>)

  /**
   * The fetch loop of `get_bulk_trends` over the remaining keywords `ks`, the
   * first of which sits at position `offset`, one keyword after the other;
   * `fetch(st, k)` is the fetch of keyword `k` from state `st`, which
   * `KeywordFetch` gives as the retry recursion.
   * Each fetch records its score or `None`; a quota error stops the loop,
   * fills the request window and marks every later keyword failed, without
   * a result for the keyword that raised it.
   */
  function Collect(st: TrendsState, results: map<string, Option<real>>, failed: set<string>, ks: seq<string>,
                   offset: nat, fetch: (TrendsState, string) -> FetchRun): Collected
    decreases |ks|
  {
    if ks == [] then Collected(st, results, failed, None)
    else
      var run := fetch(st, ks[0]);
      if run.result.QuotaExceeded? then
        Collected(run.state.(requestCount := HourlyLimit), results, failed + Elements(ks[1..]), Some(offset))
      else
        Collect(run.state, results[ks[0] := ScoreOf(run.result)], failed, ks[1..], offset + 1, fetch)
  }

  /** One step of the loop. */
  lemma CollectFirst(st: TrendsState, results: map<string, Option<real>>, failed: set<string>, ks: seq<string>,
                     offset: nat, fetch: (TrendsState, string) -> FetchRun)
    requires ks != []
    ensures var run := fetch(st, ks[0]);
      Collect(st, results, failed, ks, offset, fetch)
        == if run.result.QuotaExceeded? then
             Collected(run.state.(requestCount := HourlyLimit), results, failed + Elements(ks[1..]), Some(offset))
           else Collect(run.state, results[ks[0] := ScoreOf(run.result)], failed, ks[1..], offset + 1, fetch)
  {
  }

  /** The loop only writes results for its own keywords, and only adds to the failed set. */
  lemma {:induction false} CollectKeeps(st: TrendsState, results: map<string, Option<real>>, failed: set<string>,
                                        ks: seq<string>, offset: nat,
                                        fetch: (TrendsState, string) -> FetchRun)
    ensures var c := Collect(st, results, failed, ks, offset, fetch);
      c.results.Keys <= results.Keys + Elements(ks)
      && (forall k :: k in results && k !in ks ==> k in c.results && c.results[k] == results[k])
      && failed <= c.failed
    decreases |ks|
  {
    if ks != [] {
      var run := fetch(st, ks[0]);
      assert Elements(ks) == {ks[0]} + Elements(ks[1..]);
      if !run.result.QuotaExceeded? {
        CollectKeeps(run.state, results[ks[0] := ScoreOf(run.result)], failed, ks[1..], offset + 1, fetch);
      }
    }
  }

  /** Without a quota error every keyword of the loop gets a result and nothing is marked failed. */
  lemma {:induction false} CollectComplete(st: TrendsState, results: map<string, Option<real>>, failed: set<string>,
                                           ks: seq<string>, offset: nat,
                                           fetch: (TrendsState, string) -> FetchRun)
    ensures var c := Collect(st, results, failed, ks, offset, fetch);
      c.stoppedAt.None? ==> c.results.Keys == results.Keys + Elements(ks) && c.failed == failed
    decreases |ks|
  {
    if ks != [] {
      var run := fetch(st, ks[0]);
      assert Elements(ks) == {ks[0]} + Elements(ks[1..]);
      if !run.result.QuotaExceeded? {
        CollectComplete(run.state, results[ks[0] := ScoreOf(run.result)], failed, ks[1..], offset + 1, fetch);
      }
    }
  }

  /**
   * A quota error at position `i` leaves results for exactly the keywords
   * before it, marks exactly the keywords after it failed and fills the
   * request window.
   */
  lemma {:induction false} CollectStops(st: TrendsState, results: map<string, Option<real>>, failed: set<string>,
                                        ks: seq<string>, offset: nat,
                                        fetch: (TrendsState, string) -> FetchRun)
    ensures var c := Collect(st, results, failed, ks, offset, fetch);
      c.stoppedAt.Some? ==>
        offset <= c.stoppedAt.value < offset + |ks|
        && c.results.Keys == results.Keys + Elements(ks[..c.stoppedAt.value - offset])
        && c.failed == failed + Elements(ks[c.stoppedAt.value - offset + 1..])
        && c.state.requestCount == HourlyLimit
    decreases |ks|
  {
    if ks != [] {
      var run := fetch(st, ks[0]);
      if !run.result.QuotaExceeded? {
        var next := results[ks[0] := ScoreOf(run.result)];
        CollectStops(run.state, next, failed, ks[1..], offset + 1, fetch);
        var c := Collect(run.state, next, failed, ks[1..], offset + 1, fetch);
        if c.stoppedAt.Some? {
          var i := c.stoppedAt.value - offset;
          ShiftSlices(ks, i);
          assert c.results.Keys == results.Keys + Elements(ks[..i]) by {
            assert next.Keys == results.Keys + {ks[0]};
          }
        }
      } else {
        assert ks[..0] == [];
      }
    }
  }

  /** The slices of `ks` around position `i` seen from `ks[1..]`. */
  lemma ShiftSlices(ks: seq<string>, i: nat)
    requires 1 <= i < |ks|
    ensures Elements(ks[..i]) == {ks[0]} + Elements(ks[1..][..i - 1])
    ensures ks[1..][i - 1 + 1..] == ks[i + 1..]
  {
    assert ks[..i] == [ks[0]] + ks[1..][..i - 1];
    ElementsConcat([ks[0]], ks[1..][..i - 1]);
    assert Elements([ks[0]]) == {ks[0]};
  }

  /**
   * What `get_bulk_trends` returns: exactly the requested keywords, a saved
   * result kept as it was, and without a quota error a result for every
   * requested keyword and no keyword marked failed.
   */
  lemma BulkTrendsAnswers(st: TrendsState, failed: set<string>, keywords: seq<string>, saved: map<string, Option<real>>,
                          fetch: (TrendsState, string) -> FetchRun)
    ensures var c := Collect(st, saved, failed, Remaining(keywords, saved), 0, fetch);
      var out := Project(keywords, c.results);
      out.Keys == Elements(keywords)
      && (forall k :: k in saved && k in out ==> out[k] == saved[k])
      && (c.stoppedAt.None? ==> (forall k :: k in keywords ==> k in c.results) && c.failed == failed)
  {
    var rem := Remaining(keywords, saved);
    CollectKeeps(st, saved, failed, rem, 0, fetch);
    CollectComplete(st, saved, failed, rem, 0, fetch);
  }

  /**
   * After a quota error in `get_bulk_trends` the request window is full and
   * every remaining keyword after the one that raised it, in its own batch or
   * a later one, is marked failed.
   */
  lemma BulkTrendsStops(st: TrendsState, failed: set<string>, keywords: seq<string>, saved: map<string, Option<real>>,
                        fetch: (TrendsState, string) -> FetchRun)
    ensures var rem := Remaining(keywords, saved);
      var c := Collect(st, saved, failed, rem, 0, fetch);
      c.stoppedAt.Some? ==>
        c.stoppedAt.value < |rem| && c.state.requestCount == HourlyLimit
        && c.failed == failed + Elements(rem[c.stoppedAt.value + 1..])
  {
    CollectStops(st, saved, failed, Remaining(keywords, saved), 0, fetch);
  }

  /** How `get_bulk_trends` fetches one keyword: the retry recursion from retry count 0. */
  function KeywordFetch(clock: (string, nat) -> int, remote: (string, nat) -> TrendOutcome): (f: (TrendsState, string) -> FetchRun)
    ensures forall st, keyword :: f(st, keyword) == Fetch(st, keyword, 0, clock, remote)
  {
    (st: TrendsState, keyword: string) => Fetch(st, keyword, 0, clock, remote)
  }

  class GoogleTrendsManager {
    var failures: nat
    var openedAt: Option<int>
    var requestCount: nat
    var lastHourReset: int
    var inRow: nat
    var failedKeywords: set<string>

    function State(): TrendsState
      reads this
    {
      TrendsState(failures, openedAt, requestCount, lastHourReset, inRow)
    }

    /** A fresh manager at time `now`: no failures, no requests, the window starting now. */
    constructor (now: int)
      ensures State() == TrendsState(0, None, 0, now, 0) && failedKeywords == {}
    {
      failures, openedAt, requestCount, lastHourReset, inRow := 0, None, 0, now, 0;
      failedKeywords := {};
    }

    /** `_check_circuit_breaker` at time `now`. */
    method CheckCircuitBreaker(now: int) returns (admission: Admission)
      modifies this
      ensures (admission, State()) == CheckSpec(old(State()), now)
      ensures failedKeywords == old(failedKeywords)
    {
      if now - lastHourReset >= HourSeconds {
        requestCount := 0;
        lastHourReset := now;
      }
      if requestCount >= HourlyLimit {
        return Refused(HourlyCapReached(HourSeconds - (now - lastHourReset)));
      }
      if failures >= Threshold {
        if openedAt == None {
          openedAt := Some(now);
        }
        var elapsed := now - openedAt.value;
        if elapsed < Cooldown {
          return Refused(BreakerOpen(Cooldown - elapsed));
        }
        openedAt := None;
        failures := 0;
        inRow := 0;
      }
      admission := Admitted;
    }

    /**
     * `_get_single_trend_score_with_retry(keyword, retryCount)`; `delays` are
     * the retry sleeps it made. A refusal of the check is handled as an
     * ordinary error.
     */
    method GetSingleTrendScoreWithRetry(keyword: string, retryCount: nat,
                                        clock: (string, nat) -> int, remote: (string, nat) -> TrendOutcome)
      returns (result: FetchResult, delays: seq<nat>)
      requires retryCount <= MaxRetries
      modifies this
      ensures var run := Fetch(old(State()), keyword, retryCount, clock, remote);
        result == run.result && State() == run.state && delays == run.delays
      ensures failedKeywords == old(failedKeywords)
      decreases MaxRetries - retryCount
    {
      var admission := CheckCircuitBreaker(clock(keyword, retryCount));
      if admission.Refused? {
        failures := failures + 1;
        inRow := 0;
        return NoScore, [];
      }
      match remote(keyword, retryCount)
      case Score(v) =>
        failures := 0;
        requestCount := requestCount + 1;
        inRow := inRow + 1;
        return Scored(v), [];
      case Raised(message) =>
        if !QuotaLike(message) {
          failures := failures + 1;
          inRow := 0;
          return NoScore, [];
        }
        if retryCount < MaxRetries {
          var delay := RetryDelays[retryCount];
          inRow := 0;
          var later;
          result, later := GetSingleTrendScoreWithRetry(keyword, retryCount + 1, clock, remote);
          delays := [delay] + later;
        } else {
          failures := Threshold;
          return QuotaExceeded, [];
        }
    }

    /** `_get_single_trend_score`: the retry recursion from retry count 0, which `fetch` names. */
    method GetSingleTrendScore(keyword: string, clock: (string, nat) -> int, remote: (string, nat) -> TrendOutcome,
                               ghost fetch: (TrendsState, string) -> FetchRun)
      returns (result: FetchResult)
      requires forall st, keyword {:trigger Fetch(st, keyword, 0, clock, remote)} ::
        fetch(st, keyword) == Fetch(st, keyword, 0, clock, remote)
      modifies this
      ensures result == fetch(old(State()), keyword).result && State() == fetch(old(State()), keyword).state
      ensures failedKeywords == old(failedKeywords)
    {
      var delays;
      result, delays := GetSingleTrendScoreWithRetry(keyword, 0, clock, remote);
    }

    /**
     * One batch of `get_bulk_trends`, at position `pos` of the remaining
     * keywords and followed there by `later`: each keyword is fetched in turn
     * and its score recorded. A quota error fills the request window, marks
     * the rest of the batch and every later keyword failed, and stops.
     */
    method CollectBatch(batch: seq<string>, later: seq<string>, results: map<string, Option<real>>, ghost pos: nat,
                        clock: (string, nat) -> int, remote: (string, nat) -> TrendOutcome,
                        ghost fetch: (TrendsState, string) -> FetchRun)
      returns (updated: map<string, Option<real>>, stopped: bool)
      requires forall st, keyword {:trigger Fetch(st, keyword, 0, clock, remote)} ::
        fetch(st, keyword) == Fetch(st, keyword, 0, clock, remote)
      modifies this
      ensures var c := Collect(old(State()), results, old(failedKeywords), batch + later, pos, fetch);
        if stopped then State() == c.state && failedKeywords == c.failed && updated == c.results
        else Collect(State(), updated, failedKeywords, later, pos + |batch|, fetch) == c
    {
      ghost var total := Collect(State(), results, failedKeywords, batch + later, pos, fetch);
      updated := results;
      assert batch[0..] == batch;
      var j := 0;
      while j < |batch|
        invariant j <= |batch|
        invariant Collect(State(), updated, failedKeywords, batch[j..] + later, pos + j, fetch) == total
      {
        var keyword := batch[j];
        ghost var rest := batch[j..] + later;
        assert rest[0] == keyword && rest[1..] == batch[j + 1..] + later;
        CollectFirst(State(), updated, failedKeywords, rest, pos + j, fetch);
        var result := GetSingleTrendScore(keyword, clock, remote, fetch);
        if result.QuotaExceeded? {
          requestCount := HourlyLimit;
          ElementsConcat(batch[j + 1..], later);
          failedKeywords := failedKeywords + Elements(batch[j + 1..]) + Elements(later);
          return updated, true;
        }
        updated := updated[keyword := ScoreOf(result)];
        j := j + 1;
      }
      assert batch[|batch|..] + later == later;
      stopped := false;
    }

    /**
     * `get_bulk_trends` with the saved progress `saved`: the remaining
     * keywords are fetched batch by batch, one keyword after the other, and
     * the answer is projected onto the requested keywords.
     */
    method GetBulkTrends(keywords: seq<string>, saved: map<string, Option<real>>,
                         clock: (string, nat) -> int, remote: (string, nat) -> TrendOutcome,
                         ghost fetch: (TrendsState, string) -> FetchRun)
      returns (out: map<string, Option<real>>)
      requires forall st, keyword {:trigger Fetch(st, keyword, 0, clock, remote)} ::
        fetch(st, keyword) == Fetch(st, keyword, 0, clock, remote)
      modifies this
      ensures var c := Collect(old(State()), saved, old(failedKeywords), Remaining(keywords, saved), 0, fetch);
        State() == c.state && failedKeywords == c.failed && out == Project(keywords, c.results)
    {
      var remaining := Remaining(keywords, saved);
      var results := saved;
      if remaining == [] {
        return Project(keywords, results);
      }
      ghost var total := Collect(State(), saved, failedKeywords, remaining, 0, fetch);
      var batches := Chunks(remaining);
      ghost var pos: nat := 0;
      var b := 0;
      while b < |batches|
        invariant b <= |batches|
        invariant Collect(State(), results, failedKeywords, Flatten(batches[b..]), pos, fetch) == total
      {
        FlattenFrom(batches, b);
        var stopped;
        results, stopped := CollectBatch(batches[b], Flatten(batches[b + 1..]), results, pos, clock, remote, fetch);
        if stopped {
          return Project(keywords, results);
        }
        pos := pos + |batches[b]|;
        b := b + 1;
      }
      assert batches[|batches|..] == [];
      out := Project(keywords, results);
    }
  }
}
