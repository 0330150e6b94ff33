/**
 * The file-backed cache (`PickleCache`) and the keyword-level front end over it
 * (`CacheManager`).
 *
 * The PickleCache keeps an insertion-ordered dictionary from key to a value and
 * an absolute expiry time. Keys are evicted from the front (oldest first) before
 * every insert, a read of a live key moves it to the back, and an entry is live
 * only while `now < expiresAt`; an expired entry is removed when it is read.
 *
 * Each operation is specified by a function on a value snapshot (`Store`) of the
 * dictionary; the class methods update the fields in place and are proved to
 * produce exactly that snapshot. The lemmas state the cache's properties on the
 * snapshot functions.
 */
module Cache {
  import opened Wrappers
  import opened Seqs

  /** A stored value and the time from which it is no longer live. */
  datatype Entry<V> = Entry(value: V, expiresAt: int)

  /** The ordered dictionary: its key order, oldest first, and its entries. */
  datatype Store<V> = Store(order: seq<string>, entries: map<string, Entry<V>>)

  /** The key order lists every key of the dictionary exactly once. */
  ghost predicate WellFormed<V>(st: Store<V>) {
    Distinct(st.order) && Elements(st.order) == st.entries.Keys
  }

  /** `key` is present and has not expired at time `now` (expiry is strict). */
  predicate Live<V>(st: Store<V>, key: string, now: int) {
    key in st.entries && now < st.entries[key].expiresAt
  }

  /** What a reader at time `now` can see: the live entries' values. */
  function LiveView<V>(st: Store<V>, now: int): map<string, V> {
    map k | k in st.entries && now < st.entries[k].expiresAt :: st.entries[k].value
  }

  /** `del cache[key]` */
  function Remove<V>(st: Store<V>, key: string): Store<V> {
    Store(Without(st.order, key), st.entries - {key})
  }

  /**
   * How many keys `_evict_if_needed` pops from a dictionary of `size` keys: it
   * pops only while the size is at least `maxEntries` and stops as soon as
   * there is room. When `maxEntries <= 0` there is never room: it pops every
   * key and then fails on the empty dictionary.
   */
  function EvictCount(size: nat, maxEntries: int): (d: nat)
    ensures d <= size
    ensures maxEntries >= 1 ==> size - d < maxEntries
    ensures maxEntries < 1 ==> d == size
    ensures d > 0 ==> size - (d - 1) >= maxEntries
  {
    if maxEntries < 1 then size
    else if size < maxEntries then 0
    else size - maxEntries + 1
  }

  /** The dictionary after `d` calls of `popitem(last=False)`. */
  function DropOldest<V>(st: Store<V>, d: nat): Store<V>
    requires d <= |st.order|
  {
    Store(st.order[d..], st.entries - Elements(st.order[..d]))
  }

  /** `_evict_if_needed`: the flag is false when it popped from an empty dictionary. */
  function EvictSpec<V>(st: Store<V>, maxEntries: int): (bool, Store<V>) {
    (maxEntries >= 1, DropOldest(st, EvictCount(|st.order|, maxEntries)))
  }

  /**
   * `set(key, value, ttl)` at time `now`: evict, then store the entry with
   * expiry `now + ttl` and move the key to the back. False when eviction failed.
   */
  function SetSpec<V>(st: Store<V>, maxEntries: int, key: string, value: V, ttl: int, now: int): (bool, Store<V>) {
    var evicted := EvictSpec(st, maxEntries);
    if !evicted.0 then evicted
    else
      var kept := evicted.1;
      (true, Store(Without(kept.order, key) + [key], kept.entries[key := Entry(value, now + ttl)]))
  }

  /** `get(key)` at time `now`: a live entry's value, moving the key last; an expired entry is deleted. */
  function GetSpec<V>(st: Store<V>, key: string, now: int): (Option<V>, Store<V>) {
    if key !in st.entries then (None, st)
    else if now < st.entries[key].expiresAt then
      (Some(st.entries[key].value), Store(Without(st.order, key) + [key], st.entries))
    else (None, Remove(st, key))
  }

  /** `exists(key)` at time `now`: like `get` but without moving the key. */
  function ExistsSpec<V>(st: Store<V>, key: string, now: int): (bool, Store<V>) {
    if key !in st.entries then (false, st)
    else if now < st.entries[key].expiresAt then (true, st)
    else (false, Remove(st, key))
  }

  /** `delete(key)`: whether the key was present, and the dictionary without it. */
  function DeleteSpec<V>(st: Store<V>, key: string): (bool, Store<V>) {
    if key in st.entries then (true, Remove(st, key)) else (false, st)
  }

  /** Moving `key` to the back of a key order keeps it free of repeats and adds `key`. */
  lemma MoveLastOrder(order: seq<string>, key: string)
    requires Distinct(order)
    ensures Distinct(Without(order, key) + [key])
    ensures Elements(Without(order, key) + [key]) == Elements(order) + {key}
    ensures |Without(order, key) + [key]| == if key in order then |order| else |order| + 1
  {
    var rest := Without(order, key);
    assert Elements(rest + [key]) == Elements(rest) + {key};
    assert key !in Elements(rest);
    assert forall j :: 0 <= j < |rest| ==> rest[j] in Elements(rest);
  }

  /** The dictionary's size equals the length of its key order. */
  lemma WellFormedSize<V>(st: Store<V>)
    requires WellFormed(st)
    ensures |st.entries| == |st.order|
  {
    DistinctCard(st.order);
    assert |st.entries| == |st.entries.Keys|;
  }

  /** Removing a key keeps the dictionary well formed and touches no other entry. */
  lemma RemoveKeeps<V>(st: Store<V>, key: string)
    requires WellFormed(st)
    ensures WellFormed(Remove(st, key))
    ensures forall k :: k != key ==> (k in Remove(st, key).entries <==> k in st.entries)
    ensures forall k :: k in Remove(st, key).entries ==> Remove(st, key).entries[k] == st.entries[k]
  {
  }

  /** Popping `d` oldest keys keeps the dictionary well formed, deletes exactly their entries and keeps the rest. */
  lemma DropOldestKeeps<V>(st: Store<V>, d: nat)
    requires WellFormed(st) && d <= |st.order|
    ensures WellFormed(DropOldest(st, d))
    ensures forall k :: k in st.order[..d] ==> k !in DropOldest(st, d).entries
    ensures forall k :: k in st.order[d..] ==> k in DropOldest(st, d).entries && DropOldest(st, d).entries[k] == st.entries[k]
  {
    SuffixElements(st.order, d);
    forall k | k in st.order[..d] ensures k in Elements(st.order[..d]) { }
    forall k | k in st.order[d..] ensures k in Elements(st.order[d..]) && k in st.entries {
      assert k in Elements(st.order);
    }
  }

  /** Popping no key changes nothing. */
  lemma DropNone<V>(st: Store<V>)
    ensures DropOldest(st, 0) == st
  {
    assert Elements(st.order[..0]) == {} && st.order[0..] == st.order;
  }

  /** Popping one more key pops the front of what is left. */
  lemma DropOneMore<V>(st: Store<V>, d: nat)
    requires d < |st.order|
    ensures var rest := DropOldest(st, d);
      DropOldest(st, d + 1) == Store(rest.order[1..], rest.entries - {rest.order[0]})
  {
    assert st.order[..d + 1] == st.order[..d] + [st.order[d]];
    ElementsConcat(st.order[..d], [st.order[d]]);
    assert Elements([st.order[d]]) == {st.order[d]};
    assert st.order[d..][1..] == st.order[d + 1..];
  }

  /** Eviction keeps the dictionary well formed. */
  lemma EvictKeepsWellFormed<V>(st: Store<V>, maxEntries: int)
    requires WellFormed(st)
    ensures WellFormed(EvictSpec(st, maxEntries).1)
  {
    DropOldestKeeps(st, EvictCount(|st.order|, maxEntries));
  }

  /**
   * `set` keeps the dictionary well formed, succeeds exactly when
   * `maxEntries >= 1`, and then leaves at most `maxEntries` entries, the new
   * key last with its value and expiry `now + ttl`.
   */
  lemma SetInvariant<V>(st: Store<V>, maxEntries: int, key: string, value: V, ttl: int, now: int)
    requires WellFormed(st)
    ensures WellFormed(SetSpec(st, maxEntries, key, value, ttl, now).1)
    ensures SetSpec(st, maxEntries, key, value, ttl, now).0 <==> maxEntries >= 1
    ensures SetSpec(st, maxEntries, key, value, ttl, now).0 ==>
      var after := SetSpec(st, maxEntries, key, value, ttl, now).1;
      |after.entries| <= maxEntries
      && after.order[|after.order| - 1] == key && after.entries[key] == Entry(value, now + ttl)
  {
    var kept := EvictSpec(st, maxEntries).1;
    assert WellFormed(kept) && (maxEntries >= 1 ==> |kept.order| < maxEntries) by {
      EvictKeepsWellFormed(st, maxEntries);
    }
    if maxEntries >= 1 {
      var after := Store(Without(kept.order, key) + [key], kept.entries[key := Entry(value, now + ttl)]);
      assert WellFormed(after) by {
        MoveLastOrder(kept.order, key);
      }
      WellFormedSize(after);
      assert |after.order| <= |kept.order| + 1 by {
        MoveLastOrder(kept.order, key);
      }
    }
  }

  /** A value written with `set` is returned by `get` at any time before its expiry. */
  lemma SetThenGet<V>(st: Store<V>, maxEntries: int, key: string, value: V, ttl: int, now: int, later: int)
    requires WellFormed(st) && maxEntries >= 1
    requires later < now + ttl
    ensures SetSpec(st, maxEntries, key, value, ttl, now).0
    ensures GetSpec(SetSpec(st, maxEntries, key, value, ttl, now).1, key, later).0 == Some(value)
  {
    SetInvariant(st, maxEntries, key, value, ttl, now);
  }

  /**
   * Inserting a new key into a full dictionary evicts exactly the oldest keys:
   * the first `|order| - maxEntries + 1` keys disappear, the others keep their
   * entries and their order, and the new key is last.
   */
  lemma SetEvictsOldest<V>(st: Store<V>, maxEntries: int, key: string, value: V, ttl: int, now: int)
    requires WellFormed(st) && maxEntries >= 1 && key !in st.entries
    ensures var d := if |st.order| < maxEntries then 0 else |st.order| - maxEntries + 1;
      var after := SetSpec(st, maxEntries, key, value, ttl, now).1;
      after.order == st.order[d..] + [key]
      && (forall k :: k in st.order[..d] ==> k !in after.entries)
      && (forall k :: k in st.order[d..] ==> k in after.entries && after.entries[k] == st.entries[k])
  {
    var d := EvictCount(|st.order|, maxEntries);
    var kept := EvictSpec(st, maxEntries).1;
    DropOldestKeeps(st, d);
    assert key !in kept.order by {
      assert Elements(kept.order) == kept.entries.Keys;
    }
  }

  /** Inserting a new key into a dictionary with room appends it and evicts nothing. */
  lemma SetWithRoom<V>(st: Store<V>, maxEntries: int, key: string, value: V, ttl: int, now: int)
    requires WellFormed(st) && key !in st.entries && |st.order| < maxEntries
    ensures SetSpec(st, maxEntries, key, value, ttl, now)
      == (true, Store(st.order + [key], st.entries[key := Entry(value, now + ttl)]))
    ensures WellFormed(Store(st.order + [key], st.entries[key := Entry(value, now + ttl)]))
  {
    MoveLastOrder(st.order, key);
    assert key !in st.order by { assert Elements(st.order) == st.entries.Keys; }
    assert EvictCount(|st.order|, maxEntries) == 0;
    DropNone(st);
    assert Without(st.order, key) == st.order;
  }

  /** `set(keys[i], values[i], ttl)` for every `i` in turn, all at time `now`. */
  function SetMany<V>(st: Store<V>, maxEntries: int, keys: seq<string>, values: seq<V>, ttl: int, now: int): Store<V>
    requires |keys| == |values|
  {
    if keys == [] then st
    else SetSpec(SetMany(st, maxEntries, keys[..|keys| - 1], values[..|keys| - 1], ttl, now),
                 maxEntries, keys[|keys| - 1], values[|keys| - 1], ttl, now).1
  }

  /** The facts `FillFromEmpty` keeps about a dictionary filled with `keys`. */
  ghost predicate Filled<V>(st: Store<V>, keys: seq<string>, values: seq<V>, expiresAt: int)
    requires |keys| == |values|
  {
    WellFormed(st) && st.order == keys
    && forall i :: 0 <= i < |keys| ==> st.entries[keys[i]] == Entry(values[i], expiresAt)
  }

  /** A key different from every key a dictionary was filled with is not in it. */
  lemma FilledFresh<V>(st: Store<V>, keys: seq<string>, values: seq<V>, expiresAt: int, key: string)
    requires |keys| == |values| && Filled(st, keys, values, expiresAt)
    requires forall i :: 0 <= i < |keys| ==> keys[i] != key
    ensures key !in st.entries
  {
    assert Elements(st.order) == st.entries.Keys;
  }

  /** Adding a new key last to a filled dictionary. */
  lemma FilledAppend<V>(st: Store<V>, keys: seq<string>, values: seq<V>, key: string, value: V, expiresAt: int)
    requires |keys| == |values| && Filled(st, keys, values, expiresAt)
    requires WellFormed(Store(keys + [key], st.entries[key := Entry(value, expiresAt)]))
    ensures Filled(Store(keys + [key], st.entries[key := Entry(value, expiresAt)]), keys + [key], values + [value], expiresAt)
  {
    var ks, vs := keys + [key], values + [value];
    var m := st.entries[key := Entry(value, expiresAt)];
    forall i | 0 <= i < |ks| ensures m[ks[i]] == Entry(vs[i], expiresAt) {
      if i < |keys| {
        assert ks[i] == keys[i] && vs[i] == values[i];
        assert ks[i] != ks[|keys|];
      } else {
        assert ks[i] == key && vs[i] == value;
      }
    }
  }

  /** One more insert of a new key while there is room extends a filled dictionary. */
  lemma FillStep<V>(before: Store<V>, maxEntries: int, keys: seq<string>, values: seq<V>, key: string, value: V, ttl: int, now: int)
    requires |keys| == |values| < maxEntries && Filled(before, keys, values, now + ttl)
    requires forall i :: 0 <= i < |keys| ==> keys[i] != key
    ensures Filled(SetSpec(before, maxEntries, key, value, ttl, now).1, keys + [key], values + [value], now + ttl)
  {
    var grown := Store(keys + [key], before.entries[key := Entry(value, now + ttl)]);
    assert SetSpec(before, maxEntries, key, value, ttl, now).1 == grown && WellFormed(grown) by {
      FilledFresh(before, keys, values, now + ttl, key);
      SetWithRoom(before, maxEntries, key, value, ttl, now);
    }
    FilledAppend(before, keys, values, key, value, now + ttl);
  }

  /** Filling an empty cache with at most `maxEntries` distinct keys keeps every key, in insertion order. */
  lemma {:induction false} FillFromEmpty<V>(maxEntries: int, keys: seq<string>, values: seq<V>, ttl: int, now: int)
    requires |keys| == |values| <= maxEntries && Distinct(keys)
    ensures Filled(SetMany(Store([], map[]), maxEntries, keys, values, ttl, now), keys, values, now + ttl)
  {
    var empty: Store<V> := Store([], map[]);
    if keys == [] {
      assert Elements(keys) == {};
    } else {
      var n := |keys| - 1;
      var init := keys[..n];
      assert Distinct(init) by {
        forall i, j | 0 <= i < j < n ensures init[i] != init[j] {
          assert init[i] == keys[i] && init[j] == keys[j];
        }
      }
      FillFromEmpty(maxEntries, init, values[..n], ttl, now);
      FillStep(SetMany(empty, maxEntries, init, values[..n], ttl, now), maxEntries, init, values[..n], keys[n], values[n], ttl, now);
      SplitLast(keys);
      SplitLast(values);
    }
  }

  /** Inserting a new key into a full dictionary pops exactly the oldest key. */
  lemma SetIntoFull<V>(st: Store<V>, maxEntries: int, key: string, value: V, ttl: int, now: int)
    requires WellFormed(st) && maxEntries >= 1 && |st.order| == maxEntries && key !in st.entries
    ensures SetSpec(st, maxEntries, key, value, ttl, now).1
      == Store(st.order[1..] + [key], (st.entries - {st.order[0]})[key := Entry(value, now + ttl)])
  {
    var popped := DropOldest(st, 1);
    DropOldestKeeps(st, 1);
    assert popped == Store(st.order[1..], st.entries - {st.order[0]}) by {
      assert st.order[..1] == [st.order[0]];
      assert Elements(st.order[..1]) == {st.order[0]};
    }
    assert key !in popped.order by {
      assert Elements(popped.order) == popped.entries.Keys;
    }
  }

  /**
   * A read at time `now` (by `get` or `exists`) returns exactly what the live
   * view shows, keeps the dictionary well formed and never changes the live
   * view at `now`: it only drops an expired entry or moves a live key last.
   */
  lemma ReadsKeepLiveView<V>(st: Store<V>, key: string, now: int)
    requires WellFormed(st)
    ensures GetSpec(st, key, now).0 == if key in LiveView(st, now) then Some(LiveView(st, now)[key]) else None
    ensures ExistsSpec(st, key, now).0 <==> key in LiveView(st, now)
    ensures WellFormed(GetSpec(st, key, now).1) && WellFormed(ExistsSpec(st, key, now).1)
    ensures LiveView(GetSpec(st, key, now).1, now) == LiveView(st, now)
    ensures LiveView(ExistsSpec(st, key, now).1, now) == LiveView(st, now)
  {
    RemoveKeeps(st, key);
    if Live(st, key, now) {
      MoveLastOrder(st.order, key);
    }
  }

  /** An expired entry read by `get` or `exists` is deleted, and no other entry changes. */
  lemma ExpiredReadRemoves<V>(st: Store<V>, key: string, now: int)
    requires WellFormed(st) && key in st.entries && now >= st.entries[key].expiresAt
    ensures GetSpec(st, key, now) == (None, Remove(st, key))
    ensures ExistsSpec(st, key, now) == (false, Remove(st, key))
    ensures key !in Remove(st, key).entries && Remove(st, key).order == Without(st.order, key)
    ensures forall k :: k != key ==> (k in Remove(st, key).entries <==> k in st.entries)
    ensures forall k :: k in Remove(st, key).entries ==> Remove(st, key).entries[k] == st.entries[k]
  {
    RemoveKeeps(st, key);
  }

  /**
   * A `get` of a live key returns its value and moves it last, keeping the
   * relative order of the others; `exists` of a live key changes nothing.
   */
  lemma LiveReadOrder<V>(st: Store<V>, key: string, now: int)
    requires WellFormed(st) && Live(st, key, now)
    ensures var (r, after) := GetSpec(st, key, now);
      r == Some(st.entries[key].value) && after.entries == st.entries
      && after.order == Without(st.order, key) + [key]
      && |after.order| == |st.order|
    ensures ExistsSpec(st, key, now) == (true, st)
  {
  }

  /** `delete` reports whether the key was present, and afterwards `exists` is false. */
  lemma DeleteThenAbsent<V>(st: Store<V>, key: string, now: int)
    requires WellFormed(st)
    ensures DeleteSpec(st, key).0 <==> key in st.entries
    ensures WellFormed(DeleteSpec(st, key).1)
    ensures !ExistsSpec(DeleteSpec(st, key).1, key, now).0
    ensures forall k :: k != key ==> (k in DeleteSpec(st, key).1.entries <==> k in st.entries)
  {
    RemoveKeeps(st, key);
  }

  /** The PickleCache: an OrderedDict updated in place, bounded by `maxEntries`. */
  class PickleCache<V> {
    var order: seq<string>
    var entries: map<string, Entry<V>>
    const maxEntries: int

    /** The dictionary as a value. */
    function State(): Store<V>
      reads this
    {
      Store(order, entries)
    }

    ghost predicate Valid()
      reads this
    {
      WellFormed(State())
    }

    /** An empty cache (loading a saved file is not modelled). */
    constructor (maxEntries: int)
      ensures Valid() && State() == Store([], map[]) && this.maxEntries == maxEntries
    {
      order := [];
      entries := map[];
      this.maxEntries := maxEntries;
    }

    /** `_evict_if_needed`; false when it popped from an empty dictionary. */
    method EvictIfNeeded() returns (ok: bool)
      requires Valid()
      modifies this
      ensures Valid()
      ensures (ok, State()) == EvictSpec(old(State()), maxEntries)
    {
      ghost var start := State();
      ghost var popped: nat := 0;
      DropNone(start);
      while |order| >= maxEntries
        invariant popped <= |start.order| && State() == DropOldest(start, popped)
        invariant popped > 0 ==> |start.order| - (popped - 1) >= maxEntries
        decreases |order|
      {
        if order == [] {
          // popitem on an empty OrderedDict raises KeyError
          DropOldestKeeps(start, popped);
          return false;
        }
        var oldest := order[0];
        DropOneMore(start, popped);
        order := order[1..];
        entries := entries - {oldest};
        popped := popped + 1;
      }
      DropOldestKeeps(start, popped);
      ok := true;
    }

    method Set(key: string, value: V, ttl: int, now: int) returns (ok: bool)
      requires Valid()
      modifies this
      ensures Valid()
      ensures (ok, State()) == SetSpec(old(State()), maxEntries, key, value, ttl, now)
      ensures ok ==> |entries| <= maxEntries
    {
      SetInvariant(State(), maxEntries, key, value, ttl, now);
      ok := EvictIfNeeded();
      if !ok {
        // the exception is caught and reported as False
        return;
      }
      entries := entries[key := Entry(value, now + ttl)];
      order := Without(order, key) + [key];
    }

    method Get(key: string, now: int) returns (r: Option<V>)
      requires Valid()
      modifies this
      ensures Valid()
      ensures (r, State()) == GetSpec(old(State()), key, now)
    {
      ReadsKeepLiveView(State(), key, now);
      r := None;
      if key in entries {
        var entry := entries[key];
        if now < entry.expiresAt {
          order := Without(order, key) + [key];
          r := Some(entry.value);
        } else {
          entries := entries - {key};
          order := Without(order, key);
        }
      }
    }

    method Exists(key: string, now: int) returns (r: bool)
      requires Valid()
      modifies this
      ensures Valid()
      ensures (r, State()) == ExistsSpec(old(State()), key, now)
    {
      ReadsKeepLiveView(State(), key, now);
      r := false;
      if key in entries {
        if now < entries[key].expiresAt {
          r := true;
        } else {
          entries := entries - {key};
          order := Without(order, key);
        }
      }
    }

    method Delete(key: string) returns (r: bool)
      requires Valid()
      modifies this
      ensures Valid()
      ensures (r, State()) == DeleteSpec(old(State()), key)
    {
      RemoveKeeps(State(), key);
      r := false;
      if key in entries {
        entries := entries - {key};
        order := Without(order, key);
        r := true;
      }
    }
  }

  /** The value `CacheManager` stores per keyword. */
  datatype KeywordData = KeywordData(adsVolume: Option<int>, trendsScore: Option<real>, cachedAt: int)

  const KeyPrefix: string := "keyword:"

  /** The cache key of a keyword. */
  function KeyFor(keyword: string): string {
    KeyPrefix + keyword
  }

  /** Distinct keywords never share a cache key. */
  lemma KeyForInjective(a: string, b: string)
    ensures KeyFor(a) == KeyFor(b) <==> a == b
  {
    if KeyFor(a) == KeyFor(b) {
      assert a == KeyFor(a)[|KeyPrefix|..];
      assert b == KeyFor(b)[|KeyPrefix|..];
    }
  }

  /** The keywords of `ks` whose cache key is in the live view `lv`, in order (repeats kept). */
  function Hits<V>(ks: seq<string>, lv: map<string, V>): seq<string> {
    if ks == [] then []
    else Hits(ks[..|ks| - 1], lv) + (if KeyFor(ks[|ks| - 1]) in lv then [ks[|ks| - 1]] else [])
  }

  /** The keywords of `ks` whose cache key is not in `lv`, in order (repeats kept). */
  function Misses<V>(ks: seq<string>, lv: map<string, V>): seq<string> {
    if ks == [] then []
    else Misses(ks[..|ks| - 1], lv) + (if KeyFor(ks[|ks| - 1]) in lv then [] else [ks[|ks| - 1]])
  }

  /** The cached-data dictionary `get_batch_data` builds from the live view. */
  function CachedOf<V>(ks: seq<string>, lv: map<string, V>): map<string, V> {
    map k | k in ks && KeyFor(k) in lv :: lv[KeyFor(k)]
  }

  /** The keywords of `ks` that `get_batch_data` reports missing. */
  function MissingOf<V>(ks: seq<string>, lv: map<string, V>): set<string> {
    set k | k in ks && KeyFor(k) !in lv
  }

  /**
   * `get_batch_data` splits the keywords: the hits are exactly the keys of the
   * cached dictionary and the misses exactly the keywords with no live entry,
   * so every keyword is either cached or missing and never both.
   */
  lemma BatchPartition<V>(ks: seq<string>, lv: map<string, V>)
    ensures Elements(Hits(ks, lv)) == CachedOf(ks, lv).Keys
    ensures Elements(Misses(ks, lv)) == MissingOf(ks, lv)
    ensures CachedOf(ks, lv).Keys !! MissingOf(ks, lv)
    ensures CachedOf(ks, lv).Keys + MissingOf(ks, lv) == Elements(ks)
  {
    HitsElements(ks, lv);
    MissesElements(ks, lv);
  }

  /** The hits are exactly the keys of the cached dictionary. */
  lemma {:induction false} HitsElements<V>(ks: seq<string>, lv: map<string, V>)
    ensures Elements(Hits(ks, lv)) == CachedOf(ks, lv).Keys
  {
    if ks != [] {
      var init := ks[..|ks| - 1];
      var last := ks[|ks| - 1];
      HitsElements(init, lv);
      SplitLast(ks);
      ElementsConcat(Hits(init, lv), if KeyFor(last) in lv then [last] else []);
      assert CachedOf(ks, lv).Keys == CachedOf(init, lv).Keys + (if KeyFor(last) in lv then {last} else {});
    }
  }

  /** The misses are exactly the keywords without a live entry. */
  lemma {:induction false} MissesElements<V>(ks: seq<string>, lv: map<string, V>)
    ensures Elements(Misses(ks, lv)) == MissingOf(ks, lv)
  {
    if ks != [] {
      var init := ks[..|ks| - 1];
      var last := ks[|ks| - 1];
      MissesElements(init, lv);
      SplitLast(ks);
      ElementsConcat(Misses(init, lv), if KeyFor(last) in lv then [] else [last]);
      assert MissingOf(ks, lv) == MissingOf(init, lv) + (if KeyFor(last) in lv then {} else {last});
    }
  }

  /** Every input position is accounted for once: as a hit or as a miss. */
  lemma {:induction false} BatchCount<V>(ks: seq<string>, lv: map<string, V>)
    ensures |Hits(ks, lv)| + |Misses(ks, lv)| == |ks|
  {
    if ks != [] {
      BatchCount(ks[..|ks| - 1], lv);
    }
  }

  /** For keywords without repeats, neither the hits nor the misses repeat. */
  lemma {:induction false} BatchDistinct<V>(ks: seq<string>, lv: map<string, V>)
    requires Distinct(ks)
    ensures Distinct(Hits(ks, lv)) && Distinct(Misses(ks, lv))
  {
    if ks != [] {
      var init := ks[..|ks| - 1];
      var last := ks[|ks| - 1];
      assert Distinct(init) by {
        forall i, j | 0 <= i < j < |init| ensures init[i] != init[j] {
          assert init[i] == ks[i] && init[j] == ks[j];
        }
      }
      BatchDistinct(init, lv);
      BatchPartition(init, lv);
      assert ks == init + [last];
      assert last !in init;
      var h := Hits(init, lv);
      var m := Misses(init, lv);
      assert last !in Elements(h) && last !in Elements(m);
      assert forall j :: 0 <= j < |h| ==> h[j] in Elements(h);
      assert forall j :: 0 <= j < |m| ==> m[j] in Elements(m);
    }
  }

  /** One more keyword read by `get_batch_data`: it joins the hits or the misses. */
  lemma SplitStep<V>(ks: seq<string>, k: string, lv: map<string, V>)
    ensures Hits(ks + [k], lv) == Hits(ks, lv) + (if KeyFor(k) in lv then [k] else [])
    ensures Misses(ks + [k], lv) == Misses(ks, lv) + (if KeyFor(k) in lv then [] else [k])
  {
    assert (ks + [k])[..|ks|] == ks;
  }

  /** One more keyword read by `get_batch_data`: a hit (re)writes its dictionary entry. */
  lemma CachedStep<V>(ks: seq<string>, k: string, lv: map<string, V>)
    ensures CachedOf(ks + [k], lv) == if KeyFor(k) in lv then CachedOf(ks, lv)[k := lv[KeyFor(k)]] else CachedOf(ks, lv)
  {
    assert forall x :: x in ks + [k] <==> x in ks || x == k;
  }

  /** One more keyword read by `get_batch_data`: a hit not yet in the dictionary takes the last position. */
  lemma HitOrderStep<V>(ks: seq<string>, k: string, lv: map<string, V>)
    ensures Dedup(Hits(ks + [k], lv)) ==
      if KeyFor(k) in lv && k !in CachedOf(ks, lv) then Dedup(Hits(ks, lv)) + [k] else Dedup(Hits(ks, lv))
  {
    SplitStep(ks, k, lv);
    if KeyFor(k) in lv {
      var h := Hits(ks, lv) + [k];
      assert h[..|h| - 1] == Hits(ks, lv) && h[|h| - 1] == k;
      var d := Dedup(Hits(ks, lv));
      assert Dedup(h) == if k in d then d else d + [k];
      BatchPartition(ks, lv);
      assert k in d <==> k in Elements(d);
    } else {
      assert Hits(ks + [k], lv) == Hits(ks, lv) + [];
      assert Hits(ks, lv) + [] == Hits(ks, lv);
    }
  }

  /** The keyword-level cache: keys are `"keyword:" + keyword`. */
  class CacheManager {
    const ttl: int
    const store: PickleCache<KeywordData>
    /** Every `set_keyword_data` call so far: keyword, Ads value, Trends value. */
    ghost var writes: seq<(string, Option<int>, Option<real>)>

    ghost predicate Valid()
      reads this, store
    {
      store.Valid()
    }

    constructor (ttl: int, maxEntries: int)
      ensures Valid() && fresh(store)
      ensures store.State() == Store([], map[]) && store.maxEntries == maxEntries
      ensures this.ttl == ttl && writes == []
    {
      this.ttl := ttl;
      store := new PickleCache(maxEntries);
      writes := [];
    }

    method GetKeywordData(keyword: string, now: int) returns (r: Option<KeywordData>)
      requires Valid()
      modifies store
      ensures Valid()
      ensures (r, store.State()) == GetSpec(old(store.State()), KeyFor(keyword), now)
    {
      r := store.Get(KeyFor(keyword), now);
    }

    method SetKeywordData(keyword: string, adsVolume: Option<int>, trendsScore: Option<real>, now: int) returns (ok: bool)
      requires Valid()
      modifies this, store
      ensures Valid()
      ensures (ok, store.State()) == SetSpec(old(store.State()), store.maxEntries, KeyFor(keyword), KeywordData(adsVolume, trendsScore, now), ttl, now)
      ensures writes == old(writes) + [(keyword, adsVolume, trendsScore)]
    {
      ok := store.Set(KeyFor(keyword), KeywordData(adsVolume, trendsScore, now), ttl, now);
      writes := writes + [(keyword, adsVolume, trendsScore)];
    }

    /**
     * `get_batch_data`: the live cached data per keyword, the order in which
     * the returned dictionary holds its keys, and the missing keywords in input
     * order. Reading never changes what is live at `now`.
     */
    method GetBatchData(keywords: seq<string>, now: int)
      returns (cached: map<string, KeywordData>, hitOrder: seq<string>, missing: seq<string>)
      requires Valid()
      modifies store
      ensures Valid()
      ensures LiveView(store.State(), now) == LiveView(old(store.State()), now)
      ensures cached == CachedOf(keywords, LiveView(old(store.State()), now))
      ensures hitOrder == Dedup(Hits(keywords, LiveView(old(store.State()), now)))
      ensures missing == Misses(keywords, LiveView(old(store.State()), now))
    {
      ghost var lv := LiveView(store.State(), now);
      cached, hitOrder, missing := map[], [], [];
      for i := 0 to |keywords|
        invariant store.Valid()
        invariant LiveView(store.State(), now) == lv
        invariant cached == CachedOf(keywords[..i], lv)
        invariant hitOrder == Dedup(Hits(keywords[..i], lv))
        invariant missing == Misses(keywords[..i], lv)
      {
        var keyword := keywords[i];
        ReadsKeepLiveView(store.State(), KeyFor(keyword), now);
        SplitStep(keywords[..i], keyword, lv);
        CachedStep(keywords[..i], keyword, lv);
        HitOrderStep(keywords[..i], keyword, lv);
        TakeOneMore(keywords, i);
        var data := GetKeywordData(keyword, now);
        if data.Some? {
          // a dict keeps the position of a key's first insertion
          if keyword !in cached {
            hitOrder := hitOrder + [keyword];
          }
          cached := cached[keyword := data.value];
        } else {
          missing := missing + [keyword];
        }
      }
      assert keywords[..|keywords|] == keywords;
    }
  }
}
