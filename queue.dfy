/**
 * The keyword work queue (`QueueManager`): a pending FIFO, a set of keywords
 * being processed, the completed results and the failed keywords.
 *
 * Every method of the Python `QueueManager` holds one asyncio lock for its whole body, so
 * each is modelled as one sequential state change. Time is a parameter.
 */
module Queue {
  import opened Wrappers
  import opened Seqs

  /** At most this many keywords are handed out per batch. */
  const MaxConcurrent: nat := 20
  /** Seconds between two batches. */
  const BatchDelay: int := 5

  /** What `mark_completed` records for a keyword. */
  datatype Completion = Completion(adsVolume: Option<int>, trendsScore: Option<real>, completedAt: int)

  /** The four counts of `get_status`. */
  datatype Status = Status(pending: nat, processing: nat, completed: nat, failed: nat)

  /**
   * One entry of `get_results`: the completed data, the "Processing failed"
   * entry, or a waiting entry whose status is "pending" when `queued` and
   * "processing" otherwise.
   */
  datatype KeywordResult = Done(data: Completion) | Failed | Waiting(queued: bool)

  /**
   * `add_keywords`: each keyword in turn is appended unless it is already
   * queued or in `busy` (being processed or completed).
   */
  function Enqueue(pending: seq<string>, busy: set<string>, keywords: seq<string>): seq<string>
    decreases |keywords|
  {
    if keywords == [] then pending
    else
      var k := keywords[0];
      Enqueue(if k in pending || k in busy then pending else pending + [k], busy, keywords[1..])
  }

  /**
   * `add_keywords` keeps the queue as it was and appends after it: no keyword
   * twice, nothing busy, and every requested keyword that is not busy, whether
   * or not it failed before.
   */
  lemma {:induction false} EnqueueSpec(pending: seq<string>, busy: set<string>, keywords: seq<string>)
    ensures |Enqueue(pending, busy, keywords)| >= |pending|
    ensures Enqueue(pending, busy, keywords)[..|pending|] == pending
    ensures Elements(Enqueue(pending, busy, keywords)) == Elements(pending) + (Elements(keywords) - busy)
    ensures Distinct(pending) ==> Distinct(Enqueue(pending, busy, keywords))
    decreases |keywords|
  {
    if keywords != [] {
      var k := keywords[0];
      var next := if k in pending || k in busy then pending else pending + [k];
      EnqueueSpec(next, busy, keywords[1..]);
      assert keywords == [k] + keywords[1..];
      ElementsConcat([k], keywords[1..]);
      ElementsConcat(pending, [k]);
      assert Elements([k]) == {k};
      var r := Enqueue(next, busy, keywords[1..]);
      assert r[..|pending|] == r[..|next|][..|pending|];
      if Distinct(pending) && next != pending {
        assert Distinct(next) by {
          assert k !in Elements(pending);
        }
      }
    }
  }

  /** Adding keywords that are all queued or busy changes nothing. */
  lemma {:induction false} EnqueueNothingNew(pending: seq<string>, busy: set<string>, keywords: seq<string>)
    requires Elements(keywords) <= Elements(pending) + busy
    ensures Enqueue(pending, busy, keywords) == pending
    decreases |keywords|
  {
    if keywords != [] {
      assert keywords[0] in Elements(keywords);
      assert Elements(keywords[1..]) <= Elements(keywords);
      EnqueueNothingNew(pending, busy, keywords[1..]);
    }
  }

  /** Adding the same keywords twice queues them once. */
  lemma EnqueueIdempotent(pending: seq<string>, busy: set<string>, keywords: seq<string>)
    ensures Enqueue(Enqueue(pending, busy, keywords), busy, keywords) == Enqueue(pending, busy, keywords)
  {
    EnqueueSpec(pending, busy, keywords);
    EnqueueNothingNew(Enqueue(pending, busy, keywords), busy, keywords);
  }

  /** The entry `get_results` reports for one keyword: completed, then failed, then waiting. */
  function ResultOf(completed: map<string, Completion>, failed: set<string>, pending: seq<string>, k: string): KeywordResult {
    if k in completed then Done(completed[k])
    else if k in failed then Failed
    else Waiting(k in pending)
  }

  /** The time `get_next_batch` reaches after its rate-limit sleep: the earliest time from `now` on that is `BatchDelay` after the last batch. */
  function AfterRateLimit(lastBatchTime: int, now: int): (t: int)
    ensures t >= now && t - lastBatchTime >= BatchDelay
    ensures t == now || t == lastBatchTime + BatchDelay
  {
    if now - lastBatchTime < BatchDelay then lastBatchTime + BatchDelay else now
  }

  class QueueManager {
    var pending: seq<string>
    var processing: set<string>
    var completed: map<string, Completion>
    var failed: set<string>
    var lastBatchTime: int

    /** The queue never holds a keyword twice, nor one that is being processed. */
    ghost predicate Valid()
      reads this
    {
      Distinct(pending) && Elements(pending) !! processing
    }

    constructor ()
      ensures Valid()
      ensures pending == [] && processing == {} && completed == map[] && failed == {} && lastBatchTime == 0
    {
      pending, processing, completed, failed, lastBatchTime := [], {}, map[], {}, 0;
    }

    /** `add_keywords` */
    method AddKeywords(keywords: seq<string>)
      requires Valid()
      modifies this
      ensures Valid()
      ensures pending == Enqueue(old(pending), old(processing) + old(completed).Keys, keywords)
      ensures processing == old(processing) && completed == old(completed)
      ensures failed == old(failed) && lastBatchTime == old(lastBatchTime)
    {
      ghost var busy := processing + completed.Keys;
      for i := 0 to |keywords|
        invariant processing == old(processing) && completed == old(completed)
        invariant failed == old(failed) && lastBatchTime == old(lastBatchTime)
        invariant Enqueue(pending, busy, keywords[i..]) == Enqueue(old(pending), busy, keywords)
      {
        var keyword := keywords[i];
        assert keywords[i..] == [keyword] + keywords[i + 1..];
        if keyword !in pending && keyword !in processing && keyword !in completed {
          pending := pending + [keyword];
        }
      }
      assert keywords[|keywords|..] == [];
      EnqueueSpec(old(pending), busy, keywords);
      assert Elements(pending) !! processing;
    }

    /**
     * `get_next_batch` at time `now`: after the rate-limit wait, the first
     * `MaxConcurrent` queued keywords (or all of them) move from the queue to
     * processing, in queue order. The batch time is recorded only for a
     * non-empty batch.
     */
    method GetNextBatch(now: int) returns (batch: seq<string>)
      requires Valid()
      modifies this
      ensures Valid()
      ensures var n := if |old(pending)| < MaxConcurrent then |old(pending)| else MaxConcurrent;
        batch == old(pending)[..n] && pending == old(pending)[n..]
      ensures processing == old(processing) + Elements(batch)
      ensures |pending| == |old(pending)| - |batch| && |processing| == |old(processing)| + |batch|
      ensures lastBatchTime == if batch == [] then old(lastBatchTime) else AfterRateLimit(old(lastBatchTime), now)
      ensures completed == old(completed) && failed == old(failed)
    {
      var t := AfterRateLimit(lastBatchTime, now);
      ghost var queue := pending;
      batch := [];
      while |batch| < MaxConcurrent && pending != []
        invariant |batch| <= |queue| && batch == queue[..|batch|] && pending == queue[|batch|..]
        invariant |batch| <= MaxConcurrent && processing == old(processing) + Elements(batch)
        invariant completed == old(completed) && failed == old(failed) && lastBatchTime == old(lastBatchTime)
        decreases |pending|
      {
        var keyword := pending[0];
        PopFront(queue, |batch|);
        pending := pending[1..];
        processing := processing + {keyword};
        batch := batch + [keyword];
      }
      if batch != [] {
        lastBatchTime := t;
      }
      BatchMoves(queue, |batch|, old(processing));
    }

    /** `mark_completed`: the keyword leaves processing and its two values are recorded. */
    method MarkCompleted(keyword: string, adsVolume: Option<int>, trendsScore: Option<real>, now: int)
      requires Valid()
      modifies this
      ensures Valid()
      ensures processing == old(processing) - {keyword}
      ensures completed == old(completed)[keyword := Completion(adsVolume, trendsScore, now)]
      ensures pending == old(pending) && failed == old(failed) && lastBatchTime == old(lastBatchTime)
      ensures ResultOf(completed, failed, pending, keyword) == Done(Completion(adsVolume, trendsScore, now))
    {
      if keyword in processing {
        processing := processing - {keyword};
      }
      completed := completed[keyword := Completion(adsVolume, trendsScore, now)];
    }

    /** `mark_failed`: the keyword leaves processing and joins the failed set. */
    method MarkFailed(keyword: string)
      requires Valid()
      modifies this
      ensures Valid()
      ensures processing == old(processing) - {keyword} && failed == old(failed) + {keyword}
      ensures pending == old(pending) && completed == old(completed) && lastBatchTime == old(lastBatchTime)
      ensures keyword !in completed ==> ResultOf(completed, failed, pending, keyword) == Failed
    {
      if keyword in processing {
        processing := processing - {keyword};
      }
      failed := failed + {keyword};
    }

    /** `get_status` */
    method GetStatus() returns (r: Status)
      ensures r == Status(|pending|, |processing|, |completed|, |failed|)
    {
      r := Status(|pending|, |processing|, |completed|, |failed|);
    }

    /** `get_results`: exactly one entry per requested keyword. */
    method GetResults(keywords: seq<string>) returns (results: map<string, KeywordResult>)
      ensures results.Keys == Elements(keywords)
      ensures forall k :: k in results ==> results[k] == ResultOf(completed, failed, pending, k)
    {
      results := map[];
      for i := 0 to |keywords|
        invariant results.Keys == Elements(keywords[..i])
        invariant forall k :: k in results ==> results[k] == ResultOf(completed, failed, pending, k)
      {
        var keyword := keywords[i];
        TakeOneMore(keywords, i);
        ElementsConcat(keywords[..i], [keyword]);
        assert Elements([keyword]) == {keyword};
        if keyword in completed {
          results := results[keyword := Done(completed[keyword])];
        } else if keyword in failed {
          results := results[keyword := Failed];
        } else {
          results := results[keyword := Waiting(keyword in pending)];
        }
      }
      assert keywords[..|keywords|] == keywords;
    }

    /** `reset` */
    method Reset()
      modifies this
      ensures Valid()
      ensures pending == [] && processing == {} && completed == map[] && failed == {} && lastBatchTime == 0
    {
      pending, processing, completed, failed, lastBatchTime := [], {}, map[], {}, 0;
    }
  }

  /** Taking one more keyword from the front of what is left of a queue. */
  lemma PopFront(queue: seq<string>, n: nat)
    requires n < |queue|
    ensures queue[..n + 1] == queue[..n] + [queue[n..][0]] && queue[n + 1..] == queue[n..][1..]
    ensures Elements(queue[..n + 1]) == Elements(queue[..n]) + {queue[n]}
  {
    TakeOneMore(queue, n);
    ElementsConcat(queue[..n], [queue[n]]);
    assert Elements([queue[n]]) == {queue[n]};
  }

  /**
   * Moving the first `n` keywords of a queue without repeats into a disjoint
   * processing set keeps the two disjoint and grows the set by exactly `n`.
   */
  lemma BatchMoves(queue: seq<string>, n: nat, processing: set<string>)
    requires Distinct(queue) && Elements(queue) !! processing && n <= |queue|
    ensures Distinct(queue[n..]) && Elements(queue[n..]) !! processing + Elements(queue[..n])
    ensures |processing + Elements(queue[..n])| == |processing| + n
  {
    SuffixElements(queue, n);
    assert Distinct(queue[..n]) by {
      forall i, j | 0 <= i < j < n ensures queue[..n][i] != queue[..n][j] {
        assert queue[i] != queue[j];
      }
    }
    DistinctCard(queue[..n]);
    assert Elements(queue[..n]) <= Elements(queue);
  }
}
