/**
 * A stable sort by a real-valued key: the model of Python's `list.sort(key=...)`
 * and `sorted(..., key=...)`, both of which are stable.
 */
module Sorting {

  predicate SortedBy<T>(s: seq<T>, key: T -> real) {
    forall i, j :: 0 <= i < j < |s| ==> key(s[i]) <= key(s[j])
  }

  /** Inserts `x` before the first element whose key is not smaller than its own. */
  function Insert<T>(x: T, s: seq<T>, key: T -> real): (r: seq<T>)
    ensures multiset(r) == multiset(s) + multiset{x}
    ensures |r| == |s| + 1
  {
    if s == [] || key(x) <= key(s[0]) then
      [x] + s
    else
      assert s == [s[0]] + s[1..];
      [s[0]] + Insert(x, s[1..], key)
  }

  /** A bound every old element and the inserted one respect holds for the result. */
  lemma {:induction false} InsertLowerBound<T>(x: T, s: seq<T>, key: T -> real, lo: real)
    requires lo <= key(x) && forall k :: 0 <= k < |s| ==> lo <= key(s[k])
    ensures forall k :: 0 <= k < |Insert(x, s, key)| ==> lo <= key(Insert(x, s, key)[k])
  {
    if s != [] && key(s[0]) < key(x) {
      forall k | 0 <= k < |s[1..]| ensures lo <= key(s[1..][k]) {
        assert s[1..][k] == s[k + 1];
      }
      InsertLowerBound(x, s[1..], key, lo);
    }
  }

  lemma SortedTail<T>(s: seq<T>, key: T -> real)
    requires SortedBy(s, key) && s != []
    ensures SortedBy(s[1..], key)
    ensures forall k :: 0 <= k < |s[1..]| ==> key(s[0]) <= key(s[1..][k])
  {
    forall i, j | 0 <= i < j < |s[1..]| ensures key(s[1..][i]) <= key(s[1..][j]) {
      assert s[1..][i] == s[i + 1] && s[1..][j] == s[j + 1];
    }
    forall k | 0 <= k < |s[1..]| ensures key(s[0]) <= key(s[1..][k]) {
      assert s[1..][k] == s[k + 1];
    }
  }

  lemma SortedCons<T>(x: T, s: seq<T>, key: T -> real)
    requires SortedBy(s, key) && forall k :: 0 <= k < |s| ==> key(x) <= key(s[k])
    ensures SortedBy([x] + s, key)
  {
    var r := [x] + s;
    forall i, j | 0 <= i < j < |r| ensures key(r[i]) <= key(r[j]) {
      assert r[j] == s[j - 1];
      if i > 0 {
        assert r[i] == s[i - 1];
      }
    }
  }

  lemma {:induction false} InsertSorted<T>(x: T, s: seq<T>, key: T -> real)
    requires SortedBy(s, key)
    ensures SortedBy(Insert(x, s, key), key)
  {
    if s != [] && key(s[0]) < key(x) {
      SortedTail(s, key);
      InsertSorted(x, s[1..], key);
      InsertLowerBound(x, s[1..], key, key(s[0]));
      SortedCons(s[0], Insert(x, s[1..], key), key);
    } else if s != [] {
      SortedTail(s, key);
      forall k | 0 <= k < |s| ensures key(x) <= key(s[k]) {
        if k > 0 {
          assert s[k] == s[1..][k - 1];
        }
      }
      SortedCons(x, s, key);
    } else {
      SortedCons(x, s, key);
    }
  }

  function SortBy<T>(s: seq<T>, key: T -> real): (r: seq<T>)
    ensures multiset(r) == multiset(s)
    ensures |r| == |s|
    ensures SortedBy(r, key)
  {
    if s == [] then []
    else
      assert s == [s[0]] + s[1..];
      var rest := SortBy(s[1..], key);
      InsertSorted(s[0], rest, key);
      Insert(s[0], rest, key)
  }

  /** The elements of `s` whose key is `k`, in their order in `s`. */
  function WithKey<T>(s: seq<T>, key: T -> real, k: real): seq<T> {
    if s == [] then []
    else
      assert s == [s[0]] + s[1..];
      (if key(s[0]) == k then [s[0]] else []) + WithKey(s[1..], key, k)
  }

  /** `WithKey` of a sequence with one element in front. */
  lemma WithKeyCons<T>(a: T, t: seq<T>, key: T -> real, k: real)
    ensures WithKey([a] + t, key, k) == (if key(a) == k then [a] else []) + WithKey(t, key, k)
  {
    assert ([a] + t)[0] == a && ([a] + t)[1..] == t;
  }

  /** Two pieces of which one is empty can trade places in front of a third. */
  lemma SwapEmpty<T>(h: seq<T>, o: seq<T>, w: seq<T>)
    requires h == [] || o == []
    ensures h + (o + w) == o + (h + w)
  {
    if h == [] {
      assert h + (o + w) == o + w && h + w == w;
    } else {
      assert o + w == w && o + (h + w) == h + w;
    }
  }

  /** `Insert` puts `x` in front of every element with the same key. */
  lemma {:induction false} InsertWithKey<T>(x: T, s: seq<T>, key: T -> real, k: real)
    ensures WithKey(Insert(x, s, key), key, k) == (if key(x) == k then [x] else []) + WithKey(s, key, k)
  {
    if s == [] || key(x) <= key(s[0]) {
      WithKeyCons(x, s, key, k);
    } else {
      var head, tail := s[0], s[1..];
      assert s == [head] + tail;
      var rest := Insert(x, tail, key);
      assert Insert(x, s, key) == [head] + rest;
      InsertWithKey(x, tail, key, k);
      WithKeyCons(head, rest, key, k);
      WithKeyCons(head, tail, key, k);
      SwapEmpty(if key(head) == k then [head] else [], if key(x) == k then [x] else [], WithKey(tail, key, k));
    }
  }

  /**
   * Stability: for every key, the elements with that key come out of the
   * sort in the order they went in.
   */
  lemma {:induction false} SortByStable<T>(s: seq<T>, key: T -> real, k: real)
    ensures WithKey(SortBy(s, key), key, k) == WithKey(s, key, k)
  {
    if s != [] {
      SortByStable(s[1..], key, k);
      InsertWithKey(s[0], SortBy(s[1..], key), key, k);
    }
  }
}
