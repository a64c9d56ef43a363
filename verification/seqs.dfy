/** Sequence and arithmetic vocabulary shared by the partitioner, the digit
    mapper and the verifier: sums, powers of two, flattening a partition and
    the positions at which a partition starts a new group. */
module Seqs {

  /** Sum of a sequence, peeled from the back (the order the scan adds). */
  function Sum(s: seq<int>): int
  {
    if |s| == 0 then 0 else Sum(s[..|s| - 1]) + s[|s| - 1]
  }

  /** 2^n, the number of inclusion subsets of an n-element group. */
  function Pow2(n: nat): (r: nat)
    ensures r >= 1
  {
    if n == 0 then 1 else 2 * Pow2(n - 1)
  }

  predicate AllPositive(s: seq<int>)
  {
    forall i :: 0 <= i < |s| ==> s[i] > 0
  }

  predicate AllNonNegative(s: seq<int>)
  {
    forall i :: 0 <= i < |s| ==> s[i] >= 0
  }

  predicate SortedAsc(s: seq<int>)
  {
    forall i, j :: 0 <= i < j < |s| ==> s[i] <= s[j]
  }

  /** Concatenation of the groups of a partition, in order. */
  function Flatten(groups: seq<seq<int>>): seq<int>
  {
    if |groups| == 0 then [] else Flatten(groups[..|groups| - 1]) + groups[|groups| - 1]
  }

  /** The positions of the flattened partition at which a group other than
      the first one starts. */
  function Cuts(groups: seq<seq<int>>): set<nat>
  {
    if |groups| <= 1 then {}
    else Cuts(groups[..|groups| - 1]) + {|Flatten(groups[..|groups| - 1])|}
  }

  predicate AllNonEmpty(groups: seq<seq<int>>)
  {
    forall i :: 0 <= i < |groups| ==> |groups[i]| > 0
  }

  lemma {:induction false} SumNonNegative(s: seq<int>)
    requires AllNonNegative(s)
    ensures Sum(s) >= 0
    ensures |s| > 0 ==> Sum(s) >= s[|s| - 1]
    decreases |s|
  {
    if |s| > 0 {
      SumNonNegative(s[..|s| - 1]);
    }
  }

  lemma {:induction false} FlattenLength(groups: seq<seq<int>>)
    requires AllNonEmpty(groups)
    ensures |Flatten(groups)| >= |groups|
    decreases |groups|
  {
    if |groups| > 0 {
      FlattenLength(groups[..|groups| - 1]);
    }
  }

  /** Every cut of a partition of non-empty groups lies strictly inside its
      flattening. */
  lemma {:induction false} CutsInRange(groups: seq<seq<int>>)
    requires AllNonEmpty(groups)
    ensures forall c :: c in Cuts(groups) ==> 1 <= c < |Flatten(groups)|
    decreases |groups|
  {
    if |groups| > 1 {
      var front := groups[..|groups| - 1];
      CutsInRange(front);
      FlattenLength(front);
    }
  }

  /** Each group of a partition whose flattening is sorted is itself sorted. */
  lemma {:induction false} GroupsOfSortedAreSorted(groups: seq<seq<int>>)
    requires SortedAsc(Flatten(groups))
    ensures forall i :: 0 <= i < |groups| ==> SortedAsc(groups[i])
    decreases |groups|
  {
    if |groups| > 0 {
      var front := groups[..|groups| - 1];
      var last := groups[|groups| - 1];
      var flat := Flatten(groups);
      assert flat == Flatten(front) + last;
      assert Flatten(front) == flat[..|Flatten(front)|];
      assert SortedAsc(Flatten(front));
      GroupsOfSortedAreSorted(front);
      forall i, j | 0 <= i < j < |last|
        ensures last[i] <= last[j]
      {
        assert last[i] == flat[|Flatten(front)| + i];
        assert last[j] == flat[|Flatten(front)| + j];
      }
      forall i | 0 <= i < |groups|
        ensures SortedAsc(groups[i])
      {
        if i < |groups| - 1 {
          assert groups[i] == front[i];
        }
      }
    }
  }

  /** Appending a group appends its elements to the flattening. */
  lemma FlattenSnoc(groups: seq<seq<int>>, g: seq<int>)
    ensures Flatten(groups + [g]) == Flatten(groups) + g
  {
    assert (groups + [g])[..|groups|] == groups;
  }

  /** A new last group adds one cut, where it starts, unless it is the
      only group. */
  lemma CutsSnoc(groups: seq<seq<int>>, g: seq<int>)
    ensures Cuts(groups + [g]) == if |groups| == 0 then {} else Cuts(groups) + {|Flatten(groups)|}
  {
    assert (groups + [g])[..|groups|] == groups;
  }

  /** Appending an element adds it to the sum. */
  lemma SumSnoc(s: seq<int>, x: int)
    ensures Sum(s + [x]) == Sum(s) + x
  {
    assert (s + [x])[..|s|] == s;
  }
}
