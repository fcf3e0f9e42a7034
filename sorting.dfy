/**
 * The array helpers the components use on copies of their lists: `filter`, and the stable
 * `sort` that JavaScript's `Array.prototype.sort` performs, on an integer sort key.
 */
module Sorting {

  /** `s.filter(p)` */
  function Filter<T>(s: seq<T>, p: T -> bool): (r: seq<T>)
    ensures |r| <= |s|
    ensures forall i :: 0 <= i < |r| ==> p(r[i]) && r[i] in s
    ensures forall i :: 0 <= i < |s| && p(s[i]) ==> s[i] in r
  {
    if s == [] then []
    else if p(s[0]) then [s[0]] + Filter(s[1..], p)
    else Filter(s[1..], p)
  }

  /** `a` is `b` with some elements left out, the rest in their original order. */
  predicate IsSubsequence<T(==)>(a: seq<T>, b: seq<T>)
    decreases |b|
  {
    a == [] || (b != [] && ((a[0] == b[0] && IsSubsequence(a[1..], b[1..])) || IsSubsequence(a, b[1..])))
  }

  lemma {:induction false} FilterIsSubsequence<T>(s: seq<T>, p: T -> bool)
    ensures IsSubsequence(Filter(s, p), s)
  {
    if s != [] {
      FilterIsSubsequence(s[1..], p);
      var r := Filter(s, p);
      if p(s[0]) {
        assert r[0] == s[0] && r[1..] == Filter(s[1..], p);
      }
    }
  }

  /** A filter that every element passes keeps the whole sequence. */
  lemma {:induction false} FilterAll<T>(s: seq<T>, p: T -> bool)
    requires forall k :: 0 <= k < |s| ==> p(s[k])
    ensures Filter(s, p) == s
  {
    if s != [] {
      FilterAll(s[1..], p);
    }
  }

  // ----- stable sort by an integer key -----

  ghost predicate SortedBy<T>(s: seq<T>, key: T -> int) {
    forall i, j :: 0 <= i < j < |s| ==> key(s[i]) <= key(s[j])
  }

  /** Place `x` before the first element whose key is not smaller than its own. */
  function Insert<T>(x: T, s: seq<T>, key: T -> int): (r: seq<T>)
    requires SortedBy(s, key)
    ensures SortedBy(r, key)
    ensures multiset(r) == multiset(s) + multiset{x}
    ensures |r| == |s| + 1
    ensures r[0] == x || (s != [] && r[0] == s[0])
  {
    if s == [] || key(x) <= key(s[0]) then [x] + s
    else
      var tail := Insert(x, s[1..], key);
      assert multiset(s) == multiset{s[0]} + multiset(s[1..]) by {
        assert s == [s[0]] + s[1..];
      }
      assert key(s[0]) <= key(tail[0]);
      [s[0]] + tail
  }

  /**
   * `[...s].sort((a, b) => key(a) - key(b))`: ascending by key, a permutation of `s`.
   */
  function SortAsc<T>(s: seq<T>, key: T -> int): (r: seq<T>)
    ensures SortedBy(r, key)
    ensures multiset(r) == multiset(s)
    ensures |r| == |s|
  {
    if s == [] then []
    else
      assert s == [s[0]] + s[1..];
      Insert(s[0], SortAsc(s[1..], key), key)
  }

  /** `[...s].sort((a, b) => key(b) - key(a))`: descending by key, the same sort on `-key`. */
  function SortDesc<T>(s: seq<T>, key: T -> int): (r: seq<T>)
    ensures forall i, j :: 0 <= i < j < |r| ==> key(r[i]) >= key(r[j])
    ensures multiset(r) == multiset(s)
    ensures |r| == |s|
  {
    var neg := (x: T) => -key(x);
    var r := SortAsc(s, neg);
    assert forall i, j :: 0 <= i < j < |r| ==> neg(r[i]) <= neg(r[j]);
    r
  }

  ghost function WithKey<T>(key: T -> int, k: int): T -> bool {
    (x: T) => key(x) == k
  }

  lemma {:induction false} InsertStable<T>(x: T, s: seq<T>, key: T -> int, k: int)
    requires SortedBy(s, key)
    ensures Filter(Insert(x, s, key), WithKey(key, k)) == Filter([x] + s, WithKey(key, k))
  {
    var p := WithKey(key, k);
    if s == [] || key(x) <= key(s[0]) {
    } else {
      InsertStable(x, s[1..], key, k);
      var t := Insert(x, s[1..], key);
      assert Insert(x, s, key) == [s[0]] + t;
      assert ([s[0]] + t)[1..] == t;
      assert ([x] + s)[1..] == s;
      assert ([x] + s[1..])[1..] == s[1..];
      assert s == [s[0]] + s[1..];
      if key(s[0]) == k {
        // x has a larger key, so it is not kept either
        assert key(x) != k;
      }
    }
  }

  /**
   * The sort is stable: the elements that share any one key keep their original relative order.
   */
  lemma {:induction false} SortAscStable<T>(s: seq<T>, key: T -> int, k: int)
    ensures Filter(SortAsc(s, key), WithKey(key, k)) == Filter(s, WithKey(key, k))
  {
    if s != [] {
      var p := WithKey(key, k);
      var sorted := SortAsc(s[1..], key);
      SortAscStable(s[1..], key, k);
      InsertStable(s[0], sorted, key, k);
      FilterCons(s[0], sorted, p);
      FilterCons(s[0], s[1..], p);
      assert SortAsc(s, key) == Insert(s[0], sorted, key);
      assert [s[0]] + s[1..] == s;
    }
  }

  lemma FilterCons<T>(x: T, s: seq<T>, p: T -> bool)
    ensures Filter([x] + s, p) == if p(x) then [x] + Filter(s, p) else Filter(s, p)
  {
    assert ([x] + s)[1..] == s;
  }
}
