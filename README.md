# AdsTrendsAPI bookkeeping core, modelled in Dafny

AdsTrendsAPI answers `POST /batch_search_volume` with, for every requested
keyword, a Google Ads average monthly search volume and a Google Trends
interest score. Around the two remote providers it keeps in-memory state:
a bounded TTL cache of keyword results, a work queue of keywords, a circuit
breaker and retry loop per provider (plus an hourly request window for
Trends), and the split-and-merge logic of the batch route. This project
models that state and logic and proves what it promises.

- `common.dfy`: `Wrappers` (Python's `None`/value and `dict.get`) and `Seqs`
  (sequence facts: no repeats, element sets, first-occurrence de-duplication).
- `cache.dfy`, module `Cache`: `PickleCache` as a class holding the key
  order (`seq<string>`, oldest first) and the entries (`map` from key to value
  and expiry time), with `_evict_if_needed`, `get`, `set`, `exists` and
  `delete` proved against pure step functions on a `Store` snapshot;
  `CacheManager` with its `"keyword:"` key scheme and `get_batch_data`.
- `queue.dfy`, module `Queue`: `QueueManager` as a class over the pending
  FIFO, the processing set, the completed map, the failed set and the time
  of the last batch.
- `breaker.dfy`, module `CircuitBreaker`: the breaker check both providers
  share (threshold and cooldown are parameters).
- `ads.dfy`, module `Ads`: `GoogleAdsManager` with its breaker
  (threshold 5, cooldown 300 s), the retry loop of `_execute_with_retry`
  (3 attempts, backoff `2 ^ attempt`), the by-index response mapping of
  `_get_keyword_metrics`, and the all-`None` fallbacks of `get_bulk_metrics`.
- `trends.dfy`, module `Trends`: `GoogleTrendsManager` with its hourly window
  (50 requests per 3600 s), breaker (threshold 3, cooldown 600 s), the retry
  recursion of `_get_single_trend_score_with_retry` (retry only on
  quota-like messages, delays 30/60/120/300 s, at most 3 retries) and
  `get_bulk_trends` (set difference against saved progress, batches of 3,
  stop on quota exhaustion, projection onto the requested keywords).
- `routes.dfy`, module `Routes`: the request validation of
  `KeywordBatchRequest` and `process_keywords_batch`.

Time is an integer `now` parameter (seconds). Every remote call is an
abstract outcome: the Ads request is a function from the attempt number to
`Returned(response) | AdsException | OtherError`; the Trends request is a
function from keyword and attempt number to `Score(value) | Raised(message)`,
with the time of each attempt given by a `clock` function of the same
arguments. In `process_keywords_batch` the two gathered tasks are
parameters: each is either an answered dictionary or an exception.

Modelling choices where the code leaves something open:

- `list(set(v))` in the request validator and `list(all_keywords -
  completed_keywords)` in `get_bulk_trends` have no defined order; the model
  keeps the first occurrence of each keyword, in input order. Every property
  proved about them speaks of element sets and the absence of repeats, which
  hold for any order.
- The tasks of one Trends batch run one after the other in the model. When a
  task ends in the quota error, the later tasks of its batch count as not yet
  done, so they join `failed_keywords` with every keyword of the later
  batches.
- The breaker has no half-open state: once the cooldown has passed, the
  check clears the counter (ads.py:91-93, trends.py:71-74). Quota-like
  Trends errors are retried up to three times before they become fatal
  (trends.py:137-164). The batch response lists cache hits first, then the
  missing keywords (api_routes.py:53-98).

## Model

| member | source | states |
|---|---|---|
| Cache.EvictCount | cache.py:127-130 | the number of oldest keys the eviction loop pops: never more than the cache holds, leaves fewer than `max_entries` when that is at least 1, empties the cache otherwise, and stops as soon as the size is below the bound |
| Cache.DropOldestKeeps | cache.py:127-130 | popping the `d` oldest keys removes exactly the first `d` keys of the order and keeps every other key with its entry |
| Cache.EvictKeepsWellFormed | cache.py:127-130 | eviction keeps the key order free of repeats and equal to the dictionary's key set |
| Cache.MoveLastOrder | cache.py:150-152 | moving a key to the back keeps the order free of repeats and adds exactly that key |
| Cache.RemoveKeeps | cache.py:139-140 | `del` removes the key and leaves every other entry as it was |
| Cache.SetInvariant | cache.py:144-157 | `set` keeps the store well formed; it reports success exactly when `max_entries >= 1`, and then the cache holds at most `max_entries` entries, the key is last in the order, with the value and expiry `now + ttl` |
| Cache.SetThenGet | cache.py:132-157 | after a successful `set`, a `get` of the same key at any time before `now + ttl` returns the value |
| Cache.SetEvictsOldest | cache.py:127-152 | inserting a new key evicts exactly the oldest keys that make room and appends the new key; the surviving keys keep their entries |
| Cache.SetWithRoom | cache.py:144-157 | inserting a new key below the bound appends it and evicts nothing |
| Cache.FillFromEmpty | cache.py:144-157 | filling an empty cache with up to `max_entries` distinct keys keeps all of them, in insertion order |
| Cache.SetIntoFull | cache.py:127-152 | inserting a new key into a full cache drops exactly the oldest key and appends the new one |
| Cache.ReadsKeepLiveView | cache.py:132-167 | `get` answers the live value or `None`, `exists` answers liveness, and neither changes which entries are live or their values |
| Cache.ExpiredReadRemoves | cache.py:132-167 | `get` and `exists` of an expired key answer `None`/false and delete that entry only |
| Cache.LiveReadOrder | cache.py:132-163 | `get` of a live key returns its value and moves it last; `exists` changes nothing |
| Cache.DeleteThenAbsent | cache.py:169-179 | `delete` answers true exactly when the key was present; afterwards `exists` is false and no other key changed |
| Cache.PickleCache.constructor | cache.py:101-105 | a new cache is empty with the given bound |
| Cache.PickleCache.EvictIfNeeded | cache.py:127-130 | the in-place eviction loop performs the eviction step and keeps the store well formed |
| Cache.PickleCache.Set | cache.py:144-157 | the in-place insert performs the `set` step; on success the size is within the bound |
| Cache.PickleCache.Get | cache.py:132-142 | the in-place read performs the `get` step |
| Cache.PickleCache.Exists | cache.py:159-167 | the in-place check performs the `exists` step |
| Cache.PickleCache.Delete | cache.py:169-179 | the in-place delete performs the `delete` step |
| Cache.KeyForInjective | cache.py:219-237 | reads and writes use the key `"keyword:" + keyword`, and two keywords share a key only if they are equal |
| Cache.BatchPartition | cache.py:239-254 | every keyword is either in the cached dictionary (exactly those with a live entry) or among the missing ones, never both |
| Cache.BatchCount | cache.py:244-252 | every input position becomes exactly one hit or one miss |
| Cache.BatchDistinct | cache.py:244-252 | for input without repeats, neither hits nor misses repeat |
| Cache.CacheManager.constructor | cache.py:193-217 | a new manager has an empty cache with the given bound and TTL |
| Cache.CacheManager.GetKeywordData | cache.py:219-222 | reads the cache under the keyword's key |
| Cache.CacheManager.SetKeywordData | cache.py:224-237 | writes both metric fields and the write time under the keyword's key, with the manager's TTL |
| Cache.CacheManager.GetBatchData | cache.py:239-254 | returns the cached dictionary of the live keywords (in first-hit order) and the missing keywords in input order; the live entries are unchanged |
| Queue.EnqueueSpec | queue_manager.py:24-37 | `add_keywords` keeps the pending queue as a prefix, adds exactly the new keywords that are neither pending, processing nor completed, and keeps the queue free of repeats |
| Queue.EnqueueNothingNew | queue_manager.py:28-32 | keywords already pending, processing or completed are not enqueued again |
| Queue.EnqueueIdempotent | queue_manager.py:24-37 | adding the same keywords twice equals adding them once |
| Queue.AfterRateLimit | queue_manager.py:43-48 | the rate-limit sleep ends at least 5 s after the last batch and never before `now` |
| Queue.QueueManager.constructor | queue_manager.py:13-22 | a new queue has four empty collections and last-batch time 0 |
| Queue.QueueManager.AddKeywords | queue_manager.py:24-37 | the pending queue grows by the new keywords; nothing else changes |
| Queue.QueueManager.GetNextBatch | queue_manager.py:39-63 | the batch is the first `min(20, pending)` keywords in FIFO order; they move from pending to processing; the batch time changes only for a non-empty batch |
| Queue.BatchMoves | queue_manager.py:51-55 | popped keywords are new to processing, so processing grows by the batch length |
| Queue.QueueManager.MarkCompleted | queue_manager.py:65-75 | the keyword leaves processing and its two values are recorded as completed |
| Queue.QueueManager.MarkFailed | queue_manager.py:77-82 | the keyword leaves processing and joins the failed set |
| Queue.QueueManager.GetStatus | queue_manager.py:84-92 | the four counts are the sizes of the four collections |
| Queue.QueueManager.GetResults | queue_manager.py:94-113 | exactly one entry per requested keyword: completed values first, then failed, else pending or processing |
| Queue.QueueManager.Reset | queue_manager.py:115-122 | all four collections empty and last-batch time 0 |
| CircuitBreaker.Check | ads.py:79-94 | rejects exactly when the threshold is reached and the cooldown since opening has not passed, with the positive seconds left; records the opening time; below the threshold changes nothing; after the cooldown clears the counter and the opening time |
| CircuitBreaker.OpensAtNow | ads.py:81-90 | the first check at the threshold records `now` and rejects for the whole cooldown |
| CircuitBreaker.CheckIdempotent | ads.py:79-94 | checking twice at the same time gives the same answer and state as checking once |
| CircuitBreaker.RejectsUntilCooldown | ads.py:86-93 | after a rejection, later checks reject until the cooldown since opening has passed, and then clear the breaker |
| Ads.RetrySpec | ads.py:96-126 | at most 3 attempts; every attempt but the last raised `GoogleAdsException`; a return resets the counter and yields its result; otherwise each attempt added one failure and the loop ended on the last attempt or an other exception; sleeps `2 ^ attempt` only between attempts |
| Ads.MetricAt | ads.py:191-199 | the metric at a response index: `None` exactly beyond the response, else the volume or 0 |
| Ads.KeywordMetricsKeys | ads.py:190-201 | the metrics have exactly the requested keywords as keys |
| Ads.KeywordMetricsAt | ads.py:190-201 | the value of a keyword is the metric at the index of its last occurrence |
| Ads.DistinctKeywordMetrics | ads.py:190-201 | for keywords without repeats, keyword `i` gets the metric at index `i` |
| Ads.AllNone | ads.py:138-142 | the fallback maps every requested keyword, and only those, to `None` |
| Ads.RetryReturnsMetrics | ads.py:172-201 | a successful metrics call answers exactly the requested keywords |
| Ads.GoogleAdsManager.constructor | ads.py:29-57 | a new manager has a closed breaker |
| Ads.GoogleAdsManager.CheckCircuitBreaker | ads.py:79-94 | the in-place check performs the breaker step with threshold 5 and cooldown 300 |
| Ads.GoogleAdsManager.ExecuteWithRetry | ads.py:96-126 | checks the breaker once; a rejection makes no attempt; otherwise the result, failure count and sleeps are those of the retry loop, and any failure ends in `AdsAPIError` |
| Ads.GoogleAdsManager.GetBulkMetrics | ads.py:128-170 | answers exactly the requested keywords: all `None` without a client (the breaker untouched) or on any failure, including an open breaker; otherwise the metrics of the successful call |
| Trends.WindowedSpec | trends.py:48-51 | an hour-old window restarts at `now` with count 0, a younger one is unchanged; afterwards less than an hour has passed, and nothing else changes |
| Trends.CheckSpecProps | trends.py:45-75 | a full window refuses with the positive seconds left; otherwise the breaker is checked as for Ads, and a cooled-down breaker also resets the successes in a row; a refusal leaves failures and successes alone |
| Trends.AttemptSpec | trends.py:77-179 | one attempt: a refusal is an ordinary failure (+1 failure, successes reset, no score); a score resets failures and counts one request and one success; a quota-like error is retried before the last retry and afterwards sets failures to the threshold and ends in the quota error; any other error is an ordinary failure |
| Trends.FetchAttempts | trends.py:137-153 | at most `max_retries + 1` attempts, and the delays are `retry_delays[retry_count]`, `retry_delays[retry_count + 1]`, … one per retry |
| Trends.FetchRetriesOnQuota | trends.py:134-153 | every attempt that was retried raised a quota-like error |
| Trends.FetchResults | trends.py:121-179 | a score comes from the last attempt and leaves failures at 0; the quota error comes after exactly `max_retries + 1` attempts with failures at the threshold; no score leaves at least one failure and no successes in a row |
| Trends.RefusalNotRetried | trends.py:82-179 | a refused check ends the fetch at once as an ordinary failure, with no retry |
| Trends.AsWrittenAttempt | trends.py:134-164 | the attempt as the code classifies it: admitted attempts as above, and a refusal whose message reads as quota-like is retried or ends in the quota error |
| Trends.CountdownReadsAsQuota | trends.py:54-70 | with the breaker opened 171 s ago, the refusal message carries "429", so the code retries where an ordinary failure was meant |
| Trends.Project | trends.py:316 | the answer has exactly the requested keywords as keys, each with its result or `None` |
| Trends.Unsaved | trends.py:234-236 | the keywords not yet saved are the requested set minus the saved keys |
| Trends.Remaining | trends.py:234-236 | the remaining keywords are that set difference, without repeats |
| Trends.Chunks | trends.py:248-249 | the batches are non-empty, hold at most 3 keywords and concatenate back to the remaining keywords |
| Trends.CollectKeeps | trends.py:251-304 | the loop only adds results for its own keywords, keeps every other result and never removes a failed keyword |
| Trends.CollectComplete | trends.py:251-316 | a loop that does not stop stores a result for every keyword and fails none |
| Trends.CollectStops | trends.py:269-291 | a loop that stops at a keyword has stored results for exactly the earlier keywords, failed exactly the later ones, and set the request count to the hourly limit |
| Trends.BulkTrendsAnswers | trends.py:220-316 | `get_bulk_trends` answers exactly the requested keywords, keeps saved results, and without a quota stop has a result for every keyword and fails none |
| Trends.BulkTrendsStops | trends.py:269-291 | on a quota stop the request count is the hourly limit and every remaining keyword after the stopping one is failed |
| Trends.KeywordFetch | trends.py:181-183 | the single-keyword fetch is the retrying fetch from retry count 0 |
| Trends.GoogleTrendsManager.constructor | trends.py:28-43 | a new manager has no failures, no opened breaker, an empty window starting `now`, and no failed keywords |
| Trends.GoogleTrendsManager.CheckCircuitBreaker | trends.py:45-75 | the in-place check performs the window-and-breaker step |
| Trends.GoogleTrendsManager.GetSingleTrendScoreWithRetry | trends.py:77-179 | the recursive method returns the result, state and retry delays of the fetch |
| Trends.GoogleTrendsManager.GetSingleTrendScore | trends.py:181-183 | returns the result and state of a fetch from retry count 0 |
| Trends.GoogleTrendsManager.CollectBatch | trends.py:260-297 | processing one batch is the batch loop over that batch: either it stops with the loop's final state, or the rest of the loop continues from its state |
| Trends.GoogleTrendsManager.GetBulkTrends | trends.py:220-316 | the new state, failed keywords and answer are those of the batch loop over the remaining keywords, projected onto the request |
| Routes.ValidateKeywords | api_routes.py:17-29 | rejects exactly the lists with fewer than 1 or more than 200 items (counted before de-duplication); a valid list comes back without repeats and with the same keywords |
| Routes.DuplicatesRemoved | api_routes.py:24-28 | the validated list is shorter than the raw one exactly when the raw one repeats a keyword; its length is the number of distinct keywords |
| Routes.Answer | api_routes.py:73-92 | a provider that raised gives `None`; an answered dictionary gives the keyword's value, or `None` if it lacks the keyword |
| Routes.CachedPartRows | api_routes.py:53-58 | the cached rows name the cached keywords in dictionary order with their cached values |
| Routes.FreshPartRows | api_routes.py:90-98 | the fresh rows name the missing keywords in order, each field from its own provider |
| Routes.FreshWritesMatchRows | api_routes.py:90-100 | each missing keyword is written to the cache with exactly the values of its row |
| Routes.ResponseCoversRequest | api_routes.py:45-102 | the response names every requested keyword and no other |
| Routes.ResponseOneRowEach | api_routes.py:45-102 | for keywords without repeats, the response has exactly one row per keyword |
| Routes.ValidRequestAnswered | api_routes.py:17-102 | a validated request is answered with one row per distinct keyword it named, and nothing else |
| Routes.CachedRowsFromCache | api_routes.py:49-58 | a cache hit is answered with its cached values whatever the providers do |
| Routes.MissingRowsFromProviders | api_routes.py:60-98 | a keyword without a live entry is answered with each provider's own value |
| Routes.AdsFailureIsolated | api_routes.py:69-98 | a raised Ads task empties only the missing keywords' search volumes; the Trends scores and cached rows are unchanged |
| Routes.TrendsFailureIsolated | api_routes.py:69-98 | a raised Trends task empties only the missing keywords' scores; the Ads volumes and cached rows are unchanged |
| Routes.AllCachedNeedsNoProvider | api_routes.py:60-100 | when every keyword is cached, the response does not depend on the providers and nothing is written back |
| Routes.CachedRows | api_routes.py:53-58 | the first loop builds the cached rows |
| Routes.AnswerMissing | api_routes.py:90-100 | the second loop builds the fresh rows and logs one cache write per missing keyword, in order |
| Routes.ProcessKeywordsBatch | api_routes.py:45-102 | the response is the cached rows followed by the fresh rows, and the cache writes are exactly one per missing keyword with its row's values |

## Left out

- `RedisCache` and the choice between Redis and the pickle file (cache.py:38-95, 199-215): the model always uses the in-memory cache.
- Pickle persistence of the cache and JSON persistence of Trends progress (cache.py:107-125, trends.py:185-218, 287-288, 299-308): I/O; the saved progress is an input map to `get_bulk_trends`.
- Logging throughout, and the elapsed-time measurements that only feed the logs.
- Random jitter, the adaptive `rate_limit_delay` and the growing delay between Trends batches (ads.py:112, trends.py:86-87, 127, 146, 177, 252-258): floating-point tuning of sleeps; the model records only the Ads backoff exponent and the Trends retry delays.
- Floating-point time: `time.time()` is an integer `now`, so the countdown in the refusal messages is exact where the code rounds with `:.0f`.
- The remote providers themselves (the Google Ads client and request, pytrends and the mean of its dataframe): replaced by abstract outcomes.
- asyncio scheduling: the Trends semaphore, the concurrent tasks of a batch, task cancellation, the two gathered provider tasks in `process_keywords_batch`, the lock in `QueueManager`, and the 90 s `wait_for` with its 504 answer (api_routes.py:124-157); all operations run sequentially. The timeout branch inside `process_keywords_batch` (api_routes.py:85-88) gives the same rows as both providers having raised.
- The generic exception branch of the Trends batch loop (trends.py:292-297): `_get_single_trend_score` raises only the quota error, so that branch has no counterpart in the model.
- `get_bulk_metrics` with `_initialized` set but no client (ads.py:144-145): `_initialized` is set only after the client was created, so the model has only the `initialized` flag.
- `batch_search_volume`, `/healthz` and the rest of the HTTP wiring, `main.py`, `logger.py`, `get_refresh_token.py`.
- Cache.CacheManager.GetBatchData: states the answers and that the live entries are unchanged, not the new key order (each hit moves its key last, each expired key is deleted).
- Routes.ProcessKeywordsBatch: states the response and the log of cache writes, not the cache contents afterwards (those follow from `SetKeywordData` applied per write).
- Trends.GoogleTrendsManager.GetSingleTrendScoreWithRetry: follows the corrected attempt `Trends.Attempt` of the Findings row, where a refusal of the breaker or the hourly window counts one failure and ends the fetch with no score and no retry; the code as written is `Trends.AsWrittenAttempt`, which can retry a refusal.
- Trends.GoogleTrendsManager.GetSingleTrendScore: built on `GetSingleTrendScoreWithRetry`, so it follows `Trends.Attempt` and not `Trends.AsWrittenAttempt`.
- Trends.GoogleTrendsManager.CollectBatch: its fetches follow `Trends.Attempt` and not `Trends.AsWrittenAttempt`.
- Trends.GoogleTrendsManager.GetBulkTrends: its fetches follow `Trends.Attempt` and not `Trends.AsWrittenAttempt`.
- Trends.GoogleTrendsManager.GetBulkTrends: a task of a batch runs only after the earlier ones finish, so the breaker and window state each task sees is the one the previous task left; in the code all tasks of a batch start together.

## Findings

| source | as written | input that shows it | evidently intended | confidence | as-written member | corrected member |
|---|---|---|---|---|---|---|
| trends.py:134-137 | the refusal of the breaker or the hourly window (raised at trends.py:82 with the seconds left in its message, trends.py:56-58 and 68-70) is caught by the same handler as remote errors and classified by its lower-cased text, so a countdown containing the digits 429 reads as a quota error: the refused request is retried after 30 s without counting a failure, or on the last retry ends in `TrendQuotaExceededError`, which stops `get_bulk_trends` | breaker at 3 failures, opened at time 0, checked at time 171: 600 - 171 = 429 s remain and the message contains "429" | a refusal is an ordinary failure: one more failure, successes in a row reset, `None` returned, no retry | not executed | Trends.AsWrittenAttempt, Trends.CountdownReadsAsQuota | Trends.Attempt, Trends.RefusalNotRetried |
