/** Shared vocabulary: optional values, order-preserving subsequences, and
    sums, minima and maxima of sequences of reals. */
module Common {

  datatype Option<+T> = None | Some(value: T)

  datatype Result<+T, +E> = Ok(value: T) | Err(error: E)

  /** `a` is obtained from `s` by deleting elements, keeping the order. */
  predicate IsSubseq<T(==)>(a: seq<T>, s: seq<T>)
    decreases |s|
  {
    if a == [] then true
    else if s == [] then false
    else (a[|a| - 1] == s[|s| - 1] && IsSubseq(a[..|a| - 1], s[..|s| - 1]))
         || IsSubseq(a, s[..|s| - 1])
  }

  /** A subsequence is no longer than its source and draws its elements
      from it. */
  lemma {:induction false} SubseqMembers<T>(a: seq<T>, s: seq<T>)
    requires IsSubseq(a, s)
    ensures forall x :: x in a ==> x in s
    ensures |a| <= |s|
    decreases |s|
  {
    if a != [] && s != [] {
      var a', s' := a[..|a| - 1], s[..|s| - 1];
      if a[|a| - 1] == s[|s| - 1] && IsSubseq(a', s') {
        SubseqMembers(a', s');
        assert a == a' + [a[|a| - 1]];
        assert s == s' + [s[|s| - 1]];
      } else {
        SubseqMembers(a, s');
        assert s == s' + [s[|s| - 1]];
      }
    }
  }

  function Sum(s: seq<real>): real
  {
    if s == [] then 0.0 else Sum(s[..|s| - 1]) + s[|s| - 1]
  }

  lemma {:induction false} SumNonNegative(s: seq<real>)
    requires forall i :: 0 <= i < |s| ==> s[i] >= 0.0
    ensures Sum(s) >= 0.0
    decreases |s|
  {
    if s != [] {
      SumNonNegative(s[..|s| - 1]);
    }
  }

  lemma {:induction false} SumBounded(s: seq<real>, lo: real, hi: real)
    requires forall i :: 0 <= i < |s| ==> lo <= s[i] <= hi
    ensures |s| as real * lo <= Sum(s) <= |s| as real * hi
    decreases |s|
  {
    if s != [] {
      SumBounded(s[..|s| - 1], lo, hi);
    }
  }

  /** Adding `d` to every element adds `|s| * d` to the sum. */
  lemma {:induction false} SumShift(s: seq<real>, t: seq<real>, d: real)
    requires |t| == |s| && forall i :: 0 <= i < |s| ==> t[i] == s[i] + d
    ensures Sum(t) == Sum(s) + |s| as real * d
    decreases |s|
  {
    if s != [] {
      SumShift(s[..|s| - 1], t[..|t| - 1], d);
    }
  }

  /** Reflecting every element about `d / 2` (`t[i] == d - s[i]`) gives the
      sum `|s| * d - Sum(s)`. */
  lemma {:induction false} SumReflect(s: seq<real>, t: seq<real>, d: real)
    requires |t| == |s| && forall i :: 0 <= i < |s| ==> t[i] == d - s[i]
    ensures Sum(t) == |s| as real * d - Sum(s)
    decreases |s|
  {
    if s != [] {
      SumReflect(s[..|s| - 1], t[..|t| - 1], d);
    }
  }

  /** The smallest element of a non-empty sequence (Python's `min`). */
  function Min(s: seq<real>): (m: real)
    requires s != []
    ensures exists i :: 0 <= i < |s| && s[i] == m
    ensures forall i :: 0 <= i < |s| ==> m <= s[i]
    decreases |s|
  {
    if |s| == 1 then s[0]
    else
      var rest := Min(s[..|s| - 1]);
      if s[|s| - 1] < rest then s[|s| - 1] else rest
  }

  /** The largest element of a non-empty sequence (Python's `max`). */
  function Max(s: seq<real>): (m: real)
    requires s != []
    ensures exists i :: 0 <= i < |s| && s[i] == m
    ensures forall i :: 0 <= i < |s| ==> s[i] <= m
    decreases |s|
  {
    if |s| == 1 then s[0]
    else
      var rest := Max(s[..|s| - 1]);
      if s[|s| - 1] > rest then s[|s| - 1] else rest
  }
}
