/**
 * Positions and first appearances in a sequence, and the fact that grouping a sequence
 * by equal elements partitions its positions. Used for pandas' `groupby`, where the
 * sequence holds one group key per row.
 */
module Grouping {

  predicate Distinct<T(==)>(s: seq<T>)
  {
    forall i, j :: 0 <= i < j < |s| ==> s[i] != s[j]
  }

  predicate Increasing(s: seq<nat>)
  {
    forall i, j :: 0 <= i < j < |s| ==> s[i] < s[j]
  }

  /** `a` is `b` with some elements left out, the rest kept in their order. */
  predicate IsSubsequence<T(==)>(a: seq<T>, b: seq<T>)
    decreases |b|
  {
    if a == [] then true
    else if b == [] then false
    else if a[0] == b[0] then IsSubsequence(a[1..], b[1..])
    else IsSubsequence(a, b[1..])
  }

  lemma {:induction false} SubsequenceDropsHead<T>(a: seq<T>, x: seq<T>)
    requires a != [] && IsSubsequence(a, x)
    ensures IsSubsequence(a[1..], x)
    decreases |x|, |a|
  {
    if a[0] == x[0] {
      SubsequenceExtends(a[1..], x);
    } else {
      SubsequenceDropsHead(a, x[1..]);
      SubsequenceExtends(a[1..], x);
    }
  }

  lemma {:induction false} SubsequenceExtends<T>(a: seq<T>, x: seq<T>)
    requires x != [] && IsSubsequence(a, x[1..])
    ensures IsSubsequence(a, x)
    decreases |x|, |a|
  {
    if a != [] && a[0] == x[0] {
      SubsequenceDropsHead(a, x[1..]);
    }
  }

  /** A subsequence of a subsequence of `c` is a subsequence of `c`. */
  lemma {:induction false} SubsequenceTransitive<T>(a: seq<T>, b: seq<T>, c: seq<T>)
    requires IsSubsequence(a, b) && IsSubsequence(b, c)
    ensures IsSubsequence(a, c)
    decreases |c|
  {
    if a != [] {
      if b[0] == c[0] {
        if a[0] == b[0] {
          SubsequenceTransitive(a[1..], b[1..], c[1..]);
        } else {
          SubsequenceTransitive(a, b[1..], c[1..]);
          SubsequenceExtends(a, c);
        }
      } else {
        SubsequenceTransitive(a, b, c[1..]);
        SubsequenceExtends(a, c);
      }
    }
  }

  /** The positions of `x` in `s`, in ascending order. */
  function IndicesOf<T(==)>(s: seq<T>, x: T): (r: seq<nat>)
    ensures Increasing(r)
    ensures forall j: int :: j in r <==> 0 <= j < |s| && s[j] == x
    ensures x !in s ==> r == []
  {
    if s == [] then []
    else
      var init := s[..|s| - 1];
      var p := IndicesOf(init, x);
      assert forall k :: 0 <= k < |p| ==> p[k] in p && p[k] < |init|;
      if s[|s| - 1] == x then p + [|s| - 1] else p
  }

  /** The distinct elements of `s`, in the order of their first appearance. */
  function FirstAppearances<T(==,!new)>(s: seq<T>): (r: seq<T>)
    ensures Distinct(r)
    ensures forall x :: x in r <==> x in s
  {
    if s == [] then []
    else
      var u := FirstAppearances(s[..|s| - 1]);
      var last := s[|s| - 1];
      assert forall x :: x in s <==> x in s[..|s| - 1] || x == last by {
        assert s == s[..|s| - 1] + [last];
      }
      if last in u then u else u + [last]
  }

  /** The sum, over `keys`, of the number of positions of each key in `s`. */
  function TotalCount<T(==)>(keys: seq<T>, s: seq<T>): nat
  {
    if keys == [] then 0
    else TotalCount(keys[..|keys| - 1], s) + |IndicesOf(s, keys[|keys| - 1])|
  }

  lemma {:induction false} IndicesOfSnoc<T>(p: seq<T>, e: T, x: T)
    ensures |IndicesOf(p + [e], x)| == |IndicesOf(p, x)| + (if x == e then 1 else 0)
  {
    assert (p + [e])[..|p|] == p;
  }

  lemma {:induction false} TotalCountSnoc<T>(keys: seq<T>, p: seq<T>, e: T)
    requires Distinct(keys)
    ensures TotalCount(keys, p + [e]) == TotalCount(keys, p) + (if e in keys then 1 else 0)
  {
    if keys != [] {
      var init, last := keys[..|keys| - 1], keys[|keys| - 1];
      assert keys == init + [last];
      TotalCountSnoc(init, p, e);
      IndicesOfSnoc(p, e, last);
      assert e in keys <==> e in init || e == last;
    }
  }

  /**
   * Grouping `s` by equal elements loses and duplicates no position: the group sizes,
   * over the distinct elements, add up to `|s|`.
   */
  lemma {:induction false} GroupSizesSum<T(!new)>(s: seq<T>)
    ensures TotalCount(FirstAppearances(s), s) == |s|
  {
    if s != [] {
      var p, e := s[..|s| - 1], s[|s| - 1];
      assert s == p + [e];
      var u := FirstAppearances(p);
      GroupSizesSum(p);
      TotalCountSnoc(u, p, e);
      if e !in u {
        assert FirstAppearances(s) == u + [e];
        assert (u + [e])[..|u|] == u;
        assert IndicesOf(p, e) == [];
        IndicesOfSnoc(p, e, e);
      }
    }
  }

  /** Every position of `s` lies in the group of exactly one distinct element. */
  lemma ExactlyOneGroup<T(!new)>(s: seq<T>, i: nat)
    requires i < |s|
    ensures s[i] in FirstAppearances(s) && i in IndicesOf(s, s[i])
    ensures forall x :: i in IndicesOf(s, x) ==> x == s[i]
  {
  }
}
