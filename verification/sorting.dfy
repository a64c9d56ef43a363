/** A comparison sort over any total order, standing for Python's
    built-in sort. Because the order is total and antisymmetric, the sorted
    permutation of a sequence is unique, so every correct sort (stable or
    not) returns the same sequence as this one. */
module Sorting {

  /** `le` is a total order: total, antisymmetric and transitive. */
  ghost predicate IsTotalOrder<T(!new)>(le: (T, T) -> bool)
  {
    && (forall a, b :: le(a, b) || le(b, a))
    && (forall a, b :: le(a, b) && le(b, a) ==> a == b)
    && (forall a, b, c :: le(a, b) && le(b, c) ==> le(a, c))
  }

  predicate SortedBy<T>(s: seq<T>, le: (T, T) -> bool)
  {
    forall i, j :: 0 <= i < j < |s| ==> le(s[i], s[j])
  }

  /** Inserts `x` into a sorted sequence, before the first element it does
      not exceed. */
  function Insert<T(!new)>(x: T, s: seq<T>, le: (T, T) -> bool): (r: seq<T>)
    requires IsTotalOrder(le)
    requires SortedBy(s, le)
    ensures SortedBy(r, le)
    ensures multiset(r) == multiset(s) + multiset{x}
    decreases |s|
  {
    if |s| == 0 then [x]
    else if le(x, s[0]) then [x] + s
    else
      var tail := Insert(x, s[1..], le);
      InsertBehindHead(x, s, tail, le);
      [s[0]] + tail
  }

  /** When `x` goes after the head of `s`, the head stays first: it is at
      or below everything in the rest of `s` with `x` inserted. */
  lemma {:induction false} InsertBehindHead<T(!new)>(x: T, s: seq<T>, tail: seq<T>, le: (T, T) -> bool)
    requires IsTotalOrder(le)
    requires SortedBy(s, le) && |s| > 0 && !le(x, s[0])
    requires SortedBy(tail, le)
    requires multiset(tail) == multiset(s[1..]) + multiset{x}
    ensures SortedBy([s[0]] + tail, le)
    ensures multiset([s[0]] + tail) == multiset(s) + multiset{x}
  {
    var rest := s[1..] + [x];
    assert s == [s[0]] + s[1..];
    assert multiset(rest) == multiset(s[1..]) + multiset{x};
    assert BoundsBelow(s[0], rest, le);
    BoundPassesToPermutation(s[0], rest, tail, le);
    var r := [s[0]] + tail;
    forall i, j | 0 <= i < j < |r|
      ensures le(r[i], r[j])
    {
      if i > 0 {
        assert r[i] == tail[i - 1] && r[j] == tail[j - 1];
      } else {
        assert r[j] == tail[j - 1];
      }
    }
  }

  /** `h` is at or below every element of `s`. */
  predicate BoundsBelow<T>(h: T, s: seq<T>, le: (T, T) -> bool)
  {
    forall k :: 0 <= k < |s| ==> le(h, s[k])
  }

  /** A lower bound of a sequence bounds every permutation of it. */
  lemma {:induction false} BoundPassesToPermutation<T>(h: T, s: seq<T>, t: seq<T>, le: (T, T) -> bool)
    requires BoundsBelow(h, s, le)
    requires multiset(t) == multiset(s)
    ensures BoundsBelow(h, t, le)
  {
    forall k | 0 <= k < |t|
      ensures le(h, t[k])
    {
      assert t[k] in multiset(s);
      var i :| 0 <= i < |s| && s[i] == t[k];
    }
  }

  /** Insertion sort: a sorted permutation of `s`. */
  function Sort<T(!new)>(s: seq<T>, le: (T, T) -> bool): (r: seq<T>)
    requires IsTotalOrder(le)
    ensures SortedBy(r, le)
    ensures multiset(r) == multiset(s)
    decreases |s|
  {
    if |s| == 0 then []
    else
      assert s == [s[0]] + s[1..];
      Insert(s[0], Sort(s[1..], le), le)
  }

  /** Two sorted sequences with the same elements are equal: the result of
      sorting is determined by the multiset being sorted. */
  lemma {:induction false} SortedPermutationUnique<T(!new)>(a: seq<T>, b: seq<T>, le: (T, T) -> bool)
    requires IsTotalOrder(le)
    requires SortedBy(a, le) && SortedBy(b, le)
    requires multiset(a) == multiset(b)
    ensures a == b
    decreases |a|
  {
    assert |a| == |multiset(a)| == |multiset(b)| == |b|;
    if |a| > 0 {
      HeadIsLeast(a, le);
      HeadIsLeast(b, le);
      BoundPassesToPermutation(a[0], a, b, le);
      BoundPassesToPermutation(b[0], b, a, le);
      assert le(a[0], b[0]) && le(b[0], a[0]);
      assert a[0] == b[0];
      assert a == [a[0]] + a[1..];
      assert b == [b[0]] + b[1..];
      assert multiset(a[1..]) == multiset(a) - multiset{a[0]};
      assert multiset(b[1..]) == multiset(b) - multiset{b[0]};
      SortedPermutationUnique(a[1..], b[1..], le);
    }
  }

  /** The head of a sorted sequence bounds all of it. */
  lemma {:induction false} HeadIsLeast<T(!new)>(s: seq<T>, le: (T, T) -> bool)
    requires IsTotalOrder(le)
    requires SortedBy(s, le) && |s| > 0
    ensures BoundsBelow(s[0], s, le)
  {
    forall k | 0 <= k < |s|
      ensures le(s[0], s[k])
    {
      if k == 0 {
        var h := s[0];
        assert le(h, h) || le(h, h);
      }
    }
  }

  predicate Distinct<T(==)>(s: seq<T>)
  {
    forall i, j :: 0 <= i < j < |s| ==> s[i] != s[j]
  }

  lemma {:induction false} DistinctCountsAtMostOne<T>(s: seq<T>, x: T)
    requires Distinct(s)
    ensures multiset(s)[x] <= 1
    decreases |s|
  {
    if |s| > 0 {
      assert s == [s[0]] + s[1..];
      assert Distinct(s[1..]);
      DistinctCountsAtMostOne(s[1..], x);
      if x == s[0] {
        assert x !in s[1..];
      }
    }
  }

  lemma {:induction false} RepeatCountsTwice<T>(s: seq<T>, i: nat, j: nat)
    requires i < j < |s| && s[i] == s[j]
    ensures multiset(s)[s[i]] >= 2
  {
    assert s == s[..j] + [s[j]] + s[j + 1..];
    assert s[i] in s[..j];
  }

  /** A permutation of a sequence without repeats has no repeats. */
  lemma {:induction false} DistinctPermutation<T>(a: seq<T>, b: seq<T>)
    requires Distinct(a)
    requires multiset(a) == multiset(b)
    ensures Distinct(b)
  {
    forall i, j | 0 <= i < j < |b|
      ensures b[i] != b[j]
    {
      if b[i] == b[j] {
        RepeatCountsTwice(b, i, j);
        DistinctCountsAtMostOne(a, b[i]);
      }
    }
  }
}
