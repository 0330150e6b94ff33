/** An optional value: Python's `None` or a present value. */
module Wrappers {
  datatype Option<+T> = None | Some(value: T)

  /** Python's `d.get(k)`: the value under `k`, or `None` when `k` is absent. */
  function Lookup<K, V>(m: map<K, Option<V>>, k: K): (r: Option<V>)
    ensures k !in m ==> r == None
    ensures k in m ==> r == m[k]
  {
    if k in m then m[k] else None
  }
}

/** Facts about sequences used as key orders, queues and keyword lists. */
module Seqs {

  /** No element occurs twice. */
  predicate Distinct<T(==)>(s: seq<T>) {
    forall i, j :: 0 <= i < j < |s| ==> s[i] != s[j]
  }

  /** The elements of `s`, Python's `set(s)`. */
  function Elements<T>(s: seq<T>): set<T> {
    set x | x in s
  }

  /** `s` with every occurrence of `x` removed, the rest kept in order. */
  function Without<T(==)>(s: seq<T>, x: T): (r: seq<T>)
    ensures Elements(r) == Elements(s) - {x}
    ensures Distinct(s) ==> Distinct(r)
    ensures Distinct(s) && x in s ==> |r| == |s| - 1
    ensures x !in s ==> r == s
  {
    if s == [] then []
    else
      assert s == [s[0]] + s[1..];
      assert Elements(s) == {s[0]} + Elements(s[1..]);
      if s[0] == x then Without(s[1..], x)
      else
        var rest := Without(s[1..], x);
        var r := [s[0]] + rest;
        assert Elements(r) == {s[0]} + Elements(rest);
        assert Distinct(s) ==> s[0] !in Elements(rest);
        assert forall j :: 0 <= j < |rest| ==> rest[j] in Elements(rest);
        r
  }

  /** The first occurrence of every element, in order of first occurrence. */
  function Dedup<T(==)>(s: seq<T>): (r: seq<T>)
    ensures Distinct(r)
    ensures Elements(r) == Elements(s)
    ensures |r| <= |s|
    ensures Distinct(s) ==> r == s
  {
    if s == [] then []
    else
      var init := Dedup(s[..|s| - 1]);
      var last := s[|s| - 1];
      assert s == s[..|s| - 1] + [last];
      assert Elements(s) == Elements(s[..|s| - 1]) + {last};
      if last in init then init else init + [last]
  }

  /** A prefix one element longer. */
  lemma TakeOneMore<T>(s: seq<T>, i: nat)
    requires i < |s|
    ensures s[..i + 1] == s[..i] + [s[i]]
  {
  }

  /** A non-empty sequence is its front followed by its last element. */
  lemma SplitLast<T>(s: seq<T>)
    requires s != []
    ensures s == s[..|s| - 1] + [s[|s| - 1]]
  {
  }

  /** The elements of a concatenation. */
  lemma ElementsConcat<T>(a: seq<T>, b: seq<T>)
    ensures Elements(a + b) == Elements(a) + Elements(b)
  {
    assert forall y :: y in a + b <==> y in a || y in b;
  }

  /** Cutting a sequence without repeats splits its elements. */
  lemma SuffixElements<T>(s: seq<T>, k: nat)
    requires Distinct(s) && k <= |s|
    ensures Distinct(s[k..])
    ensures Elements(s[k..]) == Elements(s) - Elements(s[..k])
  {
    assert s == s[..k] + s[k..];
    forall x | x in Elements(s[k..])
      ensures x !in Elements(s[..k])
    {
      var j :| k <= j < |s| && s[j] == x;
      forall i | 0 <= i < k
        ensures s[..k][i] != x
      {
        assert s[i] != s[j];
      }
    }
  }

  /** A sequence without repeats has as many distinct elements as positions. */
  lemma {:induction false} DistinctCard<T>(s: seq<T>)
    requires Distinct(s)
    ensures |Elements(s)| == |s|
  {
    if s != [] {
      DistinctCard(s[1..]);
      assert Elements(s) == {s[0]} + Elements(s[1..]);
      assert s[0] !in Elements(s[1..]);
    }
  }
  /** A sequence has at most as many distinct elements as positions, and fewer when it repeats one. */
  lemma {:induction false} ElementsCard<T>(s: seq<T>)
    ensures |Elements(s)| <= |s|
    ensures !Distinct(s) ==> |Elements(s)| < |s|
  {
    if s != [] {
      var rest := s[1..];
      ElementsCard(rest);
      assert Elements(s) == {s[0]} + Elements(rest);
      if s[0] !in rest {
        if !Distinct(s) {
          var i, j :| 0 <= i < j < |s| && s[i] == s[j];
          assert i != 0;
          assert rest[i - 1] == rest[j - 1];
        }
      }
    }
  }
}
