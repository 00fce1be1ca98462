/** Python's `list.sort(key=..., reverse=...)` and `sorted(...)`: a stable sort
    by a real-valued key, ascending or descending. With `reverse=True` Python
    still keeps elements with equal keys in their original order. */
module Sorting {

  /** `a` may stand before `b` in the sorted output. */
  predicate InOrder<T>(key: T -> real, descending: bool, a: T, b: T)
  {
    if descending then key(a) >= key(b) else key(a) <= key(b)
  }

  predicate SortedBy<T>(s: seq<T>, key: T -> real, descending: bool)
  {
    forall i, j :: 0 <= i < j < |s| ==> InOrder(key, descending, s[i], s[j])
  }

  /** Places `x` after every element that may stand before it. */
  function Insert<T>(x: T, s: seq<T>, key: T -> real, descending: bool): (r: seq<T>)
    ensures |r| == |s| + 1
    decreases |s|
  {
    if s == [] || InOrder(key, descending, s[|s| - 1], x) then s + [x]
    else Insert(x, s[..|s| - 1], key, descending) + [s[|s| - 1]]
  }

  function SortBy<T>(s: seq<T>, key: T -> real, descending: bool): (r: seq<T>)
    ensures |r| == |s|
    decreases |s|
  {
    if s == [] then [] else Insert(s[|s| - 1], SortBy(s[..|s| - 1], key, descending), key, descending)
  }

  /** The elements of `s` whose key is `v`, in order. */
  function WithKey<T>(s: seq<T>, key: T -> real, v: real): seq<T>
    decreases |s|
  {
    if s == [] then []
    else WithKey(s[..|s| - 1], key, v) + (if key(s[|s| - 1]) == v then [s[|s| - 1]] else [])
  }

  lemma {:induction false} InsertMultiset<T>(x: T, s: seq<T>, key: T -> real, descending: bool)
    ensures multiset(Insert(x, s, key, descending)) == multiset(s) + multiset{x}
    decreases |s|
  {
    if !(s == [] || InOrder(key, descending, s[|s| - 1], x)) {
      InsertMultiset(x, s[..|s| - 1], key, descending);
      assert s == s[..|s| - 1] + [s[|s| - 1]];
    }
  }

  lemma {:induction false} InsertSorted<T>(x: T, s: seq<T>, key: T -> real, descending: bool)
    requires SortedBy(s, key, descending)
    ensures SortedBy(Insert(x, s, key, descending), key, descending)
    decreases |s|
  {
    var r := Insert(x, s, key, descending);
    if s == [] || InOrder(key, descending, s[|s| - 1], x) {
      assert forall i :: 0 <= i < |s| ==> InOrder(key, descending, s[i], s[|s| - 1]);
    } else {
      var s', last := s[..|s| - 1], s[|s| - 1];
      var r' := Insert(x, s', key, descending);
      InsertSorted(x, s', key, descending);
      InsertMultiset(x, s', key, descending);
      forall i | 0 <= i < |r'| ensures InOrder(key, descending, r'[i], last) {
        assert r'[i] in multiset(r');
        if r'[i] != x {
          assert r'[i] in multiset(s');
          var k :| 0 <= k < |s'| && s'[k] == r'[i];
          assert s[k] == s'[k];
        }
      }
      assert r == r' + [last];
    }
  }

  /** Inserting keeps the relative order of equal keys: `x` lands after
      every element whose key equals its own. */
  lemma {:induction false} InsertStable<T>(x: T, s: seq<T>, key: T -> real, descending: bool, v: real)
    ensures WithKey(Insert(x, s, key, descending), key, v)
            == WithKey(s, key, v) + (if key(x) == v then [x] else [])
    decreases |s|
  {
    if !(s == [] || InOrder(key, descending, s[|s| - 1], x)) {
      var s', last := s[..|s| - 1], s[|s| - 1];
      InsertStable(x, s', key, descending, v);
      var r' := Insert(x, s', key, descending);
      assert (r' + [last])[..|r' + [last]| - 1] == r';
      assert s == s' + [last];
    } else {
      assert (s + [x])[..|s + [x]| - 1] == s;
    }
  }

  /** The result is in order. */
  lemma {:induction false} SortBySorted<T>(s: seq<T>, key: T -> real, descending: bool)
    ensures SortedBy(SortBy(s, key, descending), key, descending)
    decreases |s|
  {
    if s != [] {
      SortBySorted(s[..|s| - 1], key, descending);
      InsertSorted(s[|s| - 1], SortBy(s[..|s| - 1], key, descending), key, descending);
    }
  }

  /** The result is a permutation of the input. */
  lemma {:induction false} SortByPermutation<T>(s: seq<T>, key: T -> real, descending: bool)
    ensures multiset(SortBy(s, key, descending)) == multiset(s)
    decreases |s|
  {
    if s != [] {
      SortByPermutation(s[..|s| - 1], key, descending);
      InsertMultiset(s[|s| - 1], SortBy(s[..|s| - 1], key, descending), key, descending);
      assert s == s[..|s| - 1] + [s[|s| - 1]];
    }
  }

  /** The sort is stable: for every key value, the elements carrying it come
      out in the order they went in. */
  lemma {:induction false} SortByStable<T>(s: seq<T>, key: T -> real, descending: bool, v: real)
    ensures WithKey(SortBy(s, key, descending), key, v) == WithKey(s, key, v)
    decreases |s|
  {
    if s != [] {
      SortByStable(s[..|s| - 1], key, descending, v);
      InsertStable(s[|s| - 1], SortBy(s[..|s| - 1], key, descending), key, descending, v);
    }
  }
}
