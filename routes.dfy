/**
 * The batch route: validation of the request body and `process_keywords_batch`,
 * which answers from the cache where it can, asks the Ads and Trends managers
 * for the rest, and writes their answers back into the cache.
 */
module Routes {
  import opened Wrappers
  import opened Seqs
  import opened Cache

  /** Fewest and most keywords a request may carry (checked before duplicates are removed). */
  const MinKeywords: nat := 1
  const MaxKeywords: nat := 200

  /** One row of the response. */
  datatype KeywordMetric = KeywordMetric(keyword: string, adsVolume: Option<int>, trendsScore: Option<real>)

  /**
   * What one of the two gathered tasks produced: a dictionary from keyword to
   * value, or an exception (which `gather(..., return_exceptions=True)` hands
   * back as a value).
   */
  datatype Provider<T> = Answered(values: map<string, Option<T>>) | Raised

  /**
   * Request validation: the list must hold between 1 and 200 keywords, counted
   * with their repeats; a valid list is returned without repeats.
   */
  function ValidateKeywords(raw: seq<string>): (r: Option<seq<string>>)
    ensures r.None? <==> |raw| < MinKeywords || MaxKeywords < |raw|
    ensures r.Some? ==> Distinct(r.value) && Elements(r.value) == Elements(raw)
    ensures r.Some? ==> MinKeywords <= |r.value| <= MaxKeywords
  {
    if |raw| < MinKeywords || MaxKeywords < |raw| then None
    else
      assert raw[0] in Elements(raw);
      Some(Dedup(raw))
  }

  /**
   * The duplicate warning is logged exactly when the request repeats a keyword:
   * the validated list is shorter than the raw one if and only if the raw one
   * has a repeat, and then it is shorter by the number of repeats.
   */
  lemma DuplicatesRemoved(raw: seq<string>)
    requires ValidateKeywords(raw).Some?
    ensures |ValidateKeywords(raw).value| != |raw| <==> !Distinct(raw)
    ensures |ValidateKeywords(raw).value| == |Elements(raw)|
  {
    var v := ValidateKeywords(raw).value;
    DistinctCard(v);
    ElementsCard(raw);
  }

  /** The value one provider contributes for `k`: `None` when it raised or has no entry. */
  function Answer<T>(p: Provider<T>, k: string): (r: Option<T>)
    ensures p.Raised? ==> r == None
    ensures p.Answered? && k !in p.values ==> r == None
    ensures p.Answered? && k in p.values ==> r == p.values[k]
  {
    match p
    case Raised => None
    case Answered(values) => Lookup(values, k)
  }

  /** The response rows for cache hits, in the order of the cached dictionary. */
  function CachedPart(order: seq<string>, cached: map<string, KeywordData>): (r: seq<KeywordMetric>)
    requires Elements(order) <= cached.Keys
    ensures |r| == |order|
  {
    if order == [] then []
    else
      var k := order[|order| - 1];
      assert Elements(order[..|order| - 1]) <= Elements(order);
      CachedPart(order[..|order| - 1], cached) + [KeywordMetric(k, cached[k].adsVolume, cached[k].trendsScore)]
  }

  /** The response rows for the missing keywords, from the two providers' answers. */
  function FreshPart(missing: seq<string>, ads: Provider<int>, trends: Provider<real>): (r: seq<KeywordMetric>)
    ensures |r| == |missing|
  {
    if missing == [] then []
    else
      var k := missing[|missing| - 1];
      FreshPart(missing[..|missing| - 1], ads, trends) + [KeywordMetric(k, Answer(ads, k), Answer(trends, k))]
  }

  /** The cache writes for the missing keywords, one per keyword, in order. */
  function FreshWrites(missing: seq<string>, ads: Provider<int>, trends: Provider<real>): (r: seq<(string, Option<int>, Option<real>)>)
    ensures |r| == |missing|
  {
    if missing == [] then []
    else
      var k := missing[|missing| - 1];
      FreshWrites(missing[..|missing| - 1], ads, trends) + [(k, Answer(ads, k), Answer(trends, k))]
  }

  /**
   * The response of `process_keywords_batch` for the keywords `ks` against the
   * live cache view `lv`: the cached rows first, then one row per missing keyword.
   */
  function Response(ks: seq<string>, lv: map<string, KeywordData>, ads: Provider<int>, trends: Provider<real>): seq<KeywordMetric> {
    BatchPartition(ks, lv);
    CachedPart(Dedup(Hits(ks, lv)), CachedOf(ks, lv)) + FreshPart(Misses(ks, lv), ads, trends)
  }

  /** The keywords of the response rows, in order. */
  function Names(rows: seq<KeywordMetric>): (r: seq<string>)
    ensures |r| == |rows|
    ensures forall i :: 0 <= i < |rows| ==> r[i] == rows[i].keyword
  {
    seq(|rows|, i requires 0 <= i < |rows| => rows[i].keyword)
  }

  /** The cached rows name the hits in order and carry their cached values. */
  lemma {:induction false} CachedPartRows(order: seq<string>, cached: map<string, KeywordData>)
    requires Elements(order) <= cached.Keys
    ensures forall i :: 0 <= i < |order| ==>
      CachedPart(order, cached)[i] == KeywordMetric(order[i], cached[order[i]].adsVolume, cached[order[i]].trendsScore)
  {
    if order != [] {
      var init := order[..|order| - 1];
      assert Elements(init) <= Elements(order);
      CachedPartRows(init, cached);
    }
  }

  /** The fresh rows name the missing keywords in order and carry each provider's own answer. */
  lemma {:induction false} FreshPartRows(missing: seq<string>, ads: Provider<int>, trends: Provider<real>)
    ensures forall i :: 0 <= i < |missing| ==>
      FreshPart(missing, ads, trends)[i] == KeywordMetric(missing[i], Answer(ads, missing[i]), Answer(trends, missing[i]))
  {
    if missing != [] {
      FreshPartRows(missing[..|missing| - 1], ads, trends);
    }
  }

  /** Every fresh row is written back to the cache with the values it reports. */
  lemma {:induction false} FreshWritesMatchRows(missing: seq<string>, ads: Provider<int>, trends: Provider<real>)
    ensures forall i :: 0 <= i < |missing| ==>
      var row := FreshPart(missing, ads, trends)[i];
      FreshWrites(missing, ads, trends)[i] == (row.keyword, row.adsVolume, row.trendsScore)
  {
    if missing != [] {
      FreshWritesMatchRows(missing[..|missing| - 1], ads, trends);
    }
  }

  /**
   * Every requested keyword gets a row, and no other keyword does: the cached
   * rows name the keywords with a live entry, the fresh rows the others.
   */
  lemma ResponseCoversRequest(ks: seq<string>, lv: map<string, KeywordData>, ads: Provider<int>, trends: Provider<real>)
    ensures Elements(Names(Response(ks, lv, ads, trends))) == Elements(ks)
  {
    BatchPartition(ks, lv);
    var hits := Dedup(Hits(ks, lv));
    var misses := Misses(ks, lv);
    var rows := Response(ks, lv, ads, trends);
    CachedPartRows(hits, CachedOf(ks, lv));
    FreshPartRows(misses, ads, trends);
    var names := Names(rows);
    assert names == hits + misses by {
      assert |names| == |hits| + |misses|;
      forall i | 0 <= i < |names| ensures names[i] == (hits + misses)[i] {
        if i < |hits| {
          assert rows[i] == CachedPart(hits, CachedOf(ks, lv))[i];
        } else {
          assert rows[i] == FreshPart(misses, ads, trends)[i - |hits|];
        }
      }
    }
    ElementsConcat(hits, misses);
  }

  /**
   * For a validated request (no repeats) the response has exactly one row per
   * keyword: as many rows as keywords, and no keyword twice.
   */
  lemma ResponseOneRowEach(ks: seq<string>, lv: map<string, KeywordData>, ads: Provider<int>, trends: Provider<real>)
    requires Distinct(ks)
    ensures |Response(ks, lv, ads, trends)| == |ks|
    ensures Distinct(Names(Response(ks, lv, ads, trends)))
  {
    BatchPartition(ks, lv);
    BatchDistinct(ks, lv);
    BatchCount(ks, lv);
    var hits := Hits(ks, lv);
    var misses := Misses(ks, lv);
    CachedPartRows(hits, CachedOf(ks, lv));
    FreshPartRows(misses, ads, trends);
    ResponseCoversRequest(ks, lv, ads, trends);
    var names := Names(Response(ks, lv, ads, trends));
    assert |names| == |ks|;
    DistinctCard(ks);
    ElementsCard(names);
  }

  /**
   * End to end: a request that passes validation is answered with exactly one
   * row for each distinct keyword it named, and with no other row.
   */
  lemma ValidRequestAnswered(raw: seq<string>, lv: map<string, KeywordData>, ads: Provider<int>, trends: Provider<real>)
    requires ValidateKeywords(raw).Some?
    ensures var rows := Response(ValidateKeywords(raw).value, lv, ads, trends);
      |rows| == |Elements(raw)| && Distinct(Names(rows)) && Elements(Names(rows)) == Elements(raw)
  {
    var ks := ValidateKeywords(raw).value;
    DuplicatesRemoved(raw);
    ResponseOneRowEach(ks, lv, ads, trends);
    ResponseCoversRequest(ks, lv, ads, trends);
  }

  /**
   * A cache hit is answered with the cached values, whatever the providers do.
   */
  lemma CachedRowsFromCache(ks: seq<string>, lv: map<string, KeywordData>, ads: Provider<int>, trends: Provider<real>, i: nat)
    requires i < |Dedup(Hits(ks, lv))|
    ensures var k := Dedup(Hits(ks, lv))[i];
      KeyFor(k) in lv &&
      Response(ks, lv, ads, trends)[i] == KeywordMetric(k, lv[KeyFor(k)].adsVolume, lv[KeyFor(k)].trendsScore)
  {
    BatchPartition(ks, lv);
    var hits := Dedup(Hits(ks, lv));
    CachedPartRows(hits, CachedOf(ks, lv));
    assert hits[i] in Elements(hits);
  }

  /**
   * A keyword without a live entry is answered from the providers: each field
   * comes from its own provider, and a provider that raised leaves only its own
   * field empty.
   */
  lemma MissingRowsFromProviders(ks: seq<string>, lv: map<string, KeywordData>, ads: Provider<int>, trends: Provider<real>, j: nat)
    requires j < |Misses(ks, lv)|
    ensures var k := Misses(ks, lv)[j];
      var row := Response(ks, lv, ads, trends)[|Dedup(Hits(ks, lv))| + j];
      KeyFor(k) !in lv && row == KeywordMetric(k, Answer(ads, k), Answer(trends, k))
  {
    var misses := Misses(ks, lv);
    FreshPartRows(misses, ads, trends);
    MissesElements(ks, lv);
    assert misses[j] in Elements(misses);
  }

  /**
   * A failing Ads task does not disturb the Trends scores: with the Ads task
   * raised, the response differs only in that the missing keywords' search
   * volumes are empty.
   */
  lemma AdsFailureIsolated(ks: seq<string>, lv: map<string, KeywordData>, ads: Provider<int>, trends: Provider<real>)
    ensures |Response(ks, lv, Raised, trends)| == |Response(ks, lv, ads, trends)|
    ensures forall i :: 0 <= i < |Response(ks, lv, ads, trends)| ==>
      Response(ks, lv, Raised, trends)[i] ==
        if i < |Dedup(Hits(ks, lv))| then Response(ks, lv, ads, trends)[i]
        else Response(ks, lv, ads, trends)[i].(adsVolume := None)
  {
    BatchPartition(ks, lv);
    FreshPartRows(Misses(ks, lv), ads, trends);
    FreshPartRows(Misses(ks, lv), Raised, trends);
  }

  /**
   * A failing Trends task does not disturb the Ads volumes: with the Trends task
   * raised, the response differs only in that the missing keywords' scores are
   * empty.
   */
  lemma TrendsFailureIsolated(ks: seq<string>, lv: map<string, KeywordData>, ads: Provider<int>, trends: Provider<real>)
    ensures |Response(ks, lv, ads, Raised)| == |Response(ks, lv, ads, trends)|
    ensures forall i :: 0 <= i < |Response(ks, lv, ads, trends)| ==>
      Response(ks, lv, ads, Raised)[i] ==
        if i < |Dedup(Hits(ks, lv))| then Response(ks, lv, ads, trends)[i]
        else Response(ks, lv, ads, trends)[i].(trendsScore := None)
  {
    BatchPartition(ks, lv);
    FreshPartRows(Misses(ks, lv), ads, trends);
    FreshPartRows(Misses(ks, lv), ads, Raised);
  }

  /**
   * When every keyword is cached the providers are never consulted: the
   * response does not depend on them and nothing is written back.
   */
  lemma AllCachedNeedsNoProvider(ks: seq<string>, lv: map<string, KeywordData>, ads: Provider<int>, trends: Provider<real>)
    requires forall k :: k in ks ==> KeyFor(k) in lv
    ensures Response(ks, lv, ads, trends) == Response(ks, lv, Raised, Raised)
    ensures FreshWrites(Misses(ks, lv), ads, trends) == []
  {
    NoMisses(ks, lv);
  }

  /** With every keyword cached, nothing is missing. */
  lemma {:induction false} NoMisses(ks: seq<string>, lv: map<string, KeywordData>)
    requires forall k :: k in ks ==> KeyFor(k) in lv
    ensures Misses(ks, lv) == []
  {
    if ks != [] {
      var init := ks[..|ks| - 1];
      assert forall k :: k in init ==> k in ks;
      NoMisses(init, lv);
      assert ks[|ks| - 1] in ks;
    }
  }

  /** The cached dictionary holds every keyword of its own key order. */
  lemma HitOrderCached(ks: seq<string>, lv: map<string, KeywordData>)
    ensures Elements(Dedup(Hits(ks, lv))) <= CachedOf(ks, lv).Keys
  {
    BatchPartition(ks, lv);
  }

  /** One more cached row. */
  lemma CachedPartStep(order: seq<string>, i: nat, cached: map<string, KeywordData>)
    requires i < |order| && Elements(order) <= cached.Keys
    ensures order[i] in cached
    ensures Elements(order[..i]) <= cached.Keys && Elements(order[..i + 1]) <= cached.Keys
    ensures CachedPart(order[..i + 1], cached) ==
      CachedPart(order[..i], cached) + [KeywordMetric(order[i], cached[order[i]].adsVolume, cached[order[i]].trendsScore)]
  {
    assert order[i] in Elements(order);
    assert order[..i + 1][..i] == order[..i];
    assert Elements(order[..i + 1]) <= Elements(order);
  }

  /** One more missing keyword: one more row and one more cache write. */
  lemma FreshStep(missing: seq<string>, j: nat, ads: Provider<int>, trends: Provider<real>)
    requires j < |missing|
    ensures FreshPart(missing[..j + 1], ads, trends) ==
      FreshPart(missing[..j], ads, trends) + [KeywordMetric(missing[j], Answer(ads, missing[j]), Answer(trends, missing[j]))]
    ensures FreshWrites(missing[..j + 1], ads, trends) ==
      FreshWrites(missing[..j], ads, trends) + [(missing[j], Answer(ads, missing[j]), Answer(trends, missing[j]))]
  {
    assert missing[..j + 1][..j] == missing[..j];
  }

  /**
   * The first half of `process_keywords_batch`: one row per entry of the cached
   * dictionary, in its order, carrying the cached values.
   */
  method CachedRows(order: seq<string>, cached: map<string, KeywordData>) returns (rows: seq<KeywordMetric>)
    requires Elements(order) <= cached.Keys
    ensures rows == CachedPart(order, cached)
  {
    rows := [];
    for i := 0 to |order|
      invariant rows == CachedPart(order[..i], cached)
    {
      var k := order[i];
      CachedPartStep(order, i, cached);
      rows := rows + [KeywordMetric(k, cached[k].adsVolume, cached[k].trendsScore)];
    }
    assert order[..|order|] == order;
  }

  /**
   * The second half of `process_keywords_batch`: one row per missing keyword
   * from the providers' answers, each written back to the cache as it is made.
   */
  method AnswerMissing(cm: CacheManager, missing: seq<string>, now: int, ads: Provider<int>, trends: Provider<real>)
    returns (rows: seq<KeywordMetric>)
    requires cm.Valid()
    modifies cm, cm.store
    ensures cm.Valid()
    ensures rows == FreshPart(missing, ads, trends)
    ensures cm.writes == old(cm.writes) + FreshWrites(missing, ads, trends)
  {
    rows := [];
    for j := 0 to |missing|
      invariant cm.Valid()
      invariant rows == FreshPart(missing[..j], ads, trends)
      invariant cm.writes == old(cm.writes) + FreshWrites(missing[..j], ads, trends)
    {
      var k := missing[j];
      var adsVolume := Answer(ads, k);
      var trendsScore := Answer(trends, k);
      FreshStep(missing, j, ads, trends);
      rows := rows + [KeywordMetric(k, adsVolume, trendsScore)];
      var _ := cm.SetKeywordData(k, adsVolume, trendsScore, now);
    }
    assert missing[..|missing|] == missing;
  }

  /**
   * `process_keywords_batch` against the keyword cache `cm` at time `now`, with
   * the outcomes of the Ads and Trends tasks given as `ads` and `trends` (used
   * only when some keyword is missing). Returns the response rows; writes every
   * missing keyword's row back through `set_keyword_data`.
   */
  method ProcessKeywordsBatch(cm: CacheManager, keywords: seq<string>, now: int, ads: Provider<int>, trends: Provider<real>)
    returns (results: seq<KeywordMetric>)
    requires cm.Valid()
    modifies cm, cm.store
    ensures cm.Valid()
    ensures results == Response(keywords, LiveView(old(cm.store.State()), now), ads, trends)
    ensures cm.writes == old(cm.writes) + FreshWrites(Misses(keywords, LiveView(old(cm.store.State()), now)), ads, trends)
  {
    ghost var lv := LiveView(cm.store.State(), now);
    var cached, hitOrder, missing := cm.GetBatchData(keywords, now);
    HitOrderCached(keywords, lv);
    results := CachedRows(hitOrder, cached);
    if missing != [] {
      var answered := AnswerMissing(cm, missing, now, ads, trends);
      results := results + answered;
    }
  }
}
