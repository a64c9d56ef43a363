/** The partitioner (`subset_sum_ordering`): sort the input, scan it once
    with a running prefix sum, and start a new group whenever the open group
    is non-empty and the prefix sum is strictly below the next element. The
    radix of a group of n elements is 2^n. */
module Partitioner {
  import opened Seqs
  import Sorting
  import SubsetSums
  import DigitMap

  /** The pair `(partition, radices)` the partitioner returns. */
  datatype Encoding = Encoding(partition: seq<seq<int>>, radices: seq<nat>)

  predicate IntLe(a: int, b: int)
  {
    a <= b
  }

  lemma IntLeIsTotalOrder()
    ensures Sorting.IsTotalOrder(IntLe)
  {
  }

  /** The input sorted ascending. */
  function SortAsc(nums: seq<int>): (r: seq<int>)
    ensures SortedAsc(r)
    ensures multiset(r) == multiset(nums)
  {
    IntLeIsTotalOrder();
    var r := Sorting.Sort(nums, IntLe);
    assert forall i, j :: 0 <= i < j < |r| ==> IntLe(r[i], r[j]);
    r
  }

  /** The split rule: a new group starts at sorted position j exactly when
      the sum of everything before j is strictly below the element at j. */
  predicate StartsGroup(xs: seq<int>, j: nat)
    requires 1 <= j < |xs|
  {
    Sum(xs[..j]) < xs[j]
  }

  /** The cuts of `groups` are exactly the positions of `xs` at which the
      split rule fires. */
  predicate CutsFollowSplitRule(xs: seq<int>, groups: seq<seq<int>>)
  {
    SplitRuleCuts(xs, Cuts(groups))
  }

  /** `cuts` are exactly the positions of `xs` at which the split rule
      fires. */
  predicate SplitRuleCuts(xs: seq<int>, cuts: set<nat>)
  {
    && (forall c :: c in cuts ==> 1 <= c < |xs|)
    && (forall j :: 1 <= j < |xs| ==> (j in cuts <==> StartsGroup(xs, j)))
  }

  /** Every group after the first has its first element strictly above the
      total of all earlier groups. */
  predicate EarlierGroupsBelow(groups: seq<seq<int>>)
  {
    forall i :: 1 <= i < |groups| ==> |groups[i]| > 0 && Sum(Flatten(groups[..i])) < groups[i][0]
  }

  /** A partition of non-empty groups whose flattening is split exactly by
      the split rule and whose later groups start above all earlier ones. */
  predicate WellSplit(groups: seq<seq<int>>)
  {
    && AllNonEmpty(groups)
    && CutsFollowSplitRule(Flatten(groups), groups)
    && EarlierGroupsBelow(groups)
  }

  /** What holds between two iterations of the scan: `groups` are the closed
      groups, `current` the open one and `prefix` the sum of both. */
  predicate ScanState(groups: seq<seq<int>>, current: seq<int>, prefix: int)
  {
    var open := groups + [current];
    var seen := Flatten(open);
    && prefix == Sum(seen)
    && AllNonEmpty(groups)
    && (|current| == 0 ==> |groups| == 0)
    && CutsFollowSplitRule(seen, open)
    && EarlierGroupsBelow(open)
  }

  lemma ScanStartState()
    ensures ScanState([], [], 0)
  {
    assert Flatten([[]]) == Flatten([]) + [];
  }

  /** Appending to the open group keeps every earlier prefix of groups. */
  lemma PrefixesOfExtended(groups: seq<seq<int>>, x: seq<int>, y: seq<int>)
    ensures forall i :: 0 <= i <= |groups| ==> (groups + [x])[..i] == (groups + [y])[..i] == groups[..i]
  {
  }

  /** Reading one more element `num` keeps the cuts in step with the split
      rule when a cut is added at the new position exactly when the rule
      fires there. */
  lemma {:induction false} CutsAfterAppend(seen: seq<int>, cuts: set<nat>, num: int)
    requires SplitRuleCuts(seen, cuts)
    ensures SplitRuleCuts(seen + [num], if |seen| >= 1 && Sum(seen) < num then cuts + {|seen|} else cuts)
  {
    var seen' := seen + [num];
    var cuts' := if |seen| >= 1 && Sum(seen) < num then cuts + {|seen|} else cuts;
    assert seen'[..|seen'| - 1] == seen;
    forall j | 1 <= j < |seen'|
      ensures j in cuts' <==> StartsGroup(seen', j)
    {
      assert seen'[..j] == seen[..j];
      if j < |seen| {
        assert seen'[j] == seen[j];
        assert StartsGroup(seen', j) == StartsGroup(seen, j);
      }
    }
  }

  /** Closing the open groups with a new singleton above their total keeps
      every later group above the earlier ones. */
  lemma {:induction false} EarlierGroupsBelowAfterClose(open: seq<seq<int>>, num: int)
    requires EarlierGroupsBelow(open)
    requires Sum(Flatten(open)) < num
    ensures EarlierGroupsBelow(open + [[num]])
  {
    var open' := open + [[num]];
    forall i | 1 <= i < |open'|
      ensures |open'[i]| > 0 && Sum(Flatten(open'[..i])) < open'[i][0]
    {
      if i < |open| {
        assert open'[..i] == open[..i];
        assert open'[i] == open[i];
      } else {
        assert open'[..i] == open;
      }
    }
  }

  /** Appending to the open group keeps every later group above the earlier
      ones: the open group's first element does not change. */
  lemma EarlierGroupsBelowAfterExtend(groups: seq<seq<int>>, current: seq<int>, num: int)
    requires EarlierGroupsBelow(groups + [current])
    requires |current| == 0 ==> |groups| == 0
    ensures EarlierGroupsBelow(groups + [current + [num]])
  {
    var open := groups + [current];
    var open' := groups + [current + [num]];
    PrefixesOfExtended(groups, current, current + [num]);
    forall i | 1 <= i < |open'|
      ensures |open'[i]| > 0 && Sum(Flatten(open'[..i])) < open'[i][0]
    {
      assert open'[..i] == open[..i];
    }
  }

  /** Appending to the last group appends to the flattening. */
  lemma FlattenExtendLast(groups: seq<seq<int>>, current: seq<int>, num: int)
    ensures Flatten(groups + [current + [num]]) == Flatten(groups + [current]) + [num]
  {
    FlattenSnoc(groups, current);
    FlattenSnoc(groups, current + [num]);
    var f := Flatten(groups);
    assert f + (current + [num]) == (f + current) + [num];
  }

  /** Closing the open group before `num`: the cuts gain the position of
      `num` and still follow the split rule. */
  lemma {:induction false} CutsAfterClose(open: seq<seq<int>>, num: int)
    requires CutsFollowSplitRule(Flatten(open), open)
    requires |Flatten(open)| >= 1 && Sum(Flatten(open)) < num
    ensures CutsFollowSplitRule(Flatten(open + [[num]]), open + [[num]])
  {
    FlattenSnoc(open, [num]);
    CutsSnoc(open, [num]);
    CutsAfterAppend(Flatten(open), Cuts(open), num);
  }

  /** The split rule does not fire at an element appended to the open
      group: either nothing has been read yet, or the rule was checked. */
  lemma ExtendDoesNotCut(groups: seq<seq<int>>, current: seq<int>, num: int)
    requires |current| == 0 ==> |groups| == 0
    requires |current| > 0 ==> num <= Sum(Flatten(groups + [current]))
    ensures !(|Flatten(groups + [current])| >= 1 && Sum(Flatten(groups + [current])) < num)
  {
    if |current| == 0 {
      assert groups + [current] == [[]];
      FlattenSnoc([], []);
    }
  }

  /** Appending `num` to the open group: the cuts do not change and still
      follow the split rule, since the rule does not fire at `num`. */
  lemma {:induction false} CutsAfterExtend(groups: seq<seq<int>>, current: seq<int>, num: int)
    requires CutsFollowSplitRule(Flatten(groups + [current]), groups + [current])
    requires |current| == 0 ==> |groups| == 0
    requires |current| > 0 ==> num <= Sum(Flatten(groups + [current]))
    ensures CutsFollowSplitRule(Flatten(groups + [current + [num]]), groups + [current + [num]])
  {
    var open := groups + [current];
    var open' := groups + [current + [num]];
    FlattenExtendLast(groups, current, num);
    CutsSnoc(groups, current);
    CutsSnoc(groups, current + [num]);
    ExtendDoesNotCut(groups, current, num);
    CutsAfterAppend(Flatten(open), Cuts(open), num);
  }

  /** One scan step that closes the open group and opens `[num]`. */
  lemma {:induction false} CloseStep(groups: seq<seq<int>>, current: seq<int>, prefix: int, num: int)
    requires ScanState(groups, current, prefix)
    requires |current| > 0 && prefix < num
    ensures ScanState(groups + [current], [num], prefix + num)
    ensures Flatten(groups + [current] + [[num]]) == Flatten(groups + [current]) + [num]
  {
    var open := groups + [current];
    FlattenSnoc(groups, current);
    FlattenSnoc(open, [num]);
    SumSnoc(Flatten(open), num);
    CutsAfterClose(open, num);
    EarlierGroupsBelowAfterClose(open, num);
  }

  /** One scan step that appends `num` to the open group. */
  lemma {:induction false} ExtendStep(groups: seq<seq<int>>, current: seq<int>, prefix: int, num: int)
    requires ScanState(groups, current, prefix)
    requires !(|current| > 0 && prefix < num)
    ensures ScanState(groups, current + [num], prefix + num)
    ensures Flatten(groups + [current + [num]]) == Flatten(groups + [current]) + [num]
  {
    FlattenExtendLast(groups, current, num);
    SumSnoc(Flatten(groups + [current]), num);
    CutsAfterExtend(groups, current, num);
    EarlierGroupsBelowAfterExtend(groups, current, num);
  }

  /** Once the input runs out, closing the open group leaves a well-split
      partition. */
  lemma ScanDone(groups: seq<seq<int>>, current: seq<int>, prefix: int)
    requires ScanState(groups, current, prefix)
    requires |current| > 0
    ensures WellSplit(groups + [current])
  {
    assert AllNonEmpty(groups + [current]) by {
      forall i | 0 <= i < |groups + [current]|
        ensures |(groups + [current])[i]| > 0
      {
        if i < |groups| {
          assert (groups + [current])[i] == groups[i];
        }
      }
    }
  }

  /** Moving the first unread element to the end of what has been read. */
  lemma ReadOne(seen: seq<int>, rest: seq<int>)
    requires |rest| > 0
    ensures (seen + [rest[0]]) + rest[1..] == seen + rest
  {
    assert [rest[0]] + rest[1..] == rest;
  }

  /** The loop of the partitioner over the still unread sorted elements
      `rest`, with closed `groups`, open group `current` and running sum
      `prefix`; the final open group is closed once the input runs out. */
  function Scan(rest: seq<int>, groups: seq<seq<int>>, current: seq<int>, prefix: int): (r: seq<seq<int>>)
    requires ScanState(groups, current, prefix)
    requires |current| > 0 || |rest| > 0
    ensures Flatten(r) == Flatten(groups + [current]) + rest
    ensures WellSplit(r)
    decreases |rest|
  {
    if |rest| == 0 then
      assert rest == [];
      ScanDone(groups, current, prefix);
      groups + [current]
    else
      var num := rest[0];
      ReadOne(Flatten(groups + [current]), rest);
      if |current| > 0 && prefix < num then
        CloseStep(groups, current, prefix, num);
        Scan(rest[1..], groups + [current], [num], prefix + num)
      else
        ExtendStep(groups, current, prefix, num);
        Scan(rest[1..], groups, current + [num], prefix + num)
  }

  /** One radix per group: the size of the digit alphabet at that position,
      which is the number of rows of the group's digit map. */
  function Radices(groups: seq<seq<int>>): (r: seq<nat>)
    ensures |r| == |groups|
    ensures forall i :: 0 <= i < |groups| ==> r[i] == |DigitMap.BuildDigitMap(groups[i])|
  {
    seq(|groups|, i requires 0 <= i < |groups| => Pow2(|groups[i]|))
  }

  /** The partitioner. The flattened partition is the input sorted, no group
      is empty, the cuts are exactly where the split rule fires, every later
      group starts above the total of the earlier ones, and each radix is 2
      to the size of its group. */
  function SubsetSumOrdering(nums: seq<int>): (e: Encoding)
    ensures |nums| == 0 ==> e.partition == [] && e.radices == []
    ensures |nums| > 0 ==> |e.partition| > 0 && AllNonEmpty(e.partition)
    ensures multiset(Flatten(e.partition)) == multiset(nums)
    ensures SortedAsc(Flatten(e.partition))
    ensures forall i :: 0 <= i < |e.partition| ==> SortedAsc(e.partition[i])
    ensures CutsFollowSplitRule(Flatten(e.partition), e.partition)
    ensures EarlierGroupsBelow(e.partition)
    ensures |e.radices| == |e.partition|
    ensures forall i :: 0 <= i < |e.partition| ==> e.radices[i] == Pow2(|e.partition[i]|)
  {
    if |nums| == 0 then Encoding([], [])
    else
      var sorted := SortAsc(nums);
      ScanStartState();
      var groups := Scan(sorted, [], [], 0);
      assert Flatten([[]]) == Flatten([]) + [];
      assert Flatten(groups) == sorted;
      GroupsOfSortedAreSorted(groups);
      Encoding(groups, Radices(groups))
  }

  /** Two ascending sequences holding the same elements are equal. */
  lemma SortedAscUnique(a: seq<int>, b: seq<int>)
    requires SortedAsc(a) && SortedAsc(b)
    requires multiset(a) == multiset(b)
    ensures a == b
  {
    IntLeIsTotalOrder();
    assert Sorting.SortedBy(a, IntLe);
    assert Sorting.SortedBy(b, IntLe);
    Sorting.SortedPermutationUnique(a, b, IntLe);
  }

  /** The result depends only on the multiset of inputs, not on their order. */
  lemma OrderingIgnoresInputOrder(a: seq<int>, b: seq<int>)
    requires multiset(a) == multiset(b)
    ensures SubsetSumOrdering(a) == SubsetSumOrdering(b)
  {
    assert |a| == |multiset(a)| == |multiset(b)| == |b|;
    if |a| > 0 {
      SortedAscUnique(SortAsc(a), SortAsc(b));
    }
  }

  /** On positive inputs every element of the partition is positive. */
  lemma PartitionIsPositive(nums: seq<int>)
    requires AllPositive(nums)
    ensures AllPositive(Flatten(SubsetSumOrdering(nums).partition))
  {
    var xs := Flatten(SubsetSumOrdering(nums).partition);
    forall i | 0 <= i < |xs|
      ensures xs[i] > 0
    {
      assert xs[i] in multiset(xs);
      assert xs[i] in multiset(nums);
    }
  }

  /** Every earlier part and every group of a positive partition is
      positive. */
  lemma {:induction false} PositivityInherited(groups: seq<seq<int>>)
    requires AllPositive(Flatten(groups))
    ensures forall i :: 0 <= i <= |groups| ==> AllPositive(Flatten(groups[..i]))
    ensures forall i :: 0 <= i < |groups| ==> AllPositive(groups[i])
    decreases |groups|
  {
    if |groups| > 0 {
      var front := groups[..|groups| - 1];
      var last := groups[|groups| - 1];
      var flat := Flatten(groups);
      assert flat == Flatten(front) + last;
      assert AllPositive(Flatten(front)) by {
        forall t | 0 <= t < |Flatten(front)|
          ensures Flatten(front)[t] > 0
        {
          assert Flatten(front)[t] == flat[t];
        }
      }
      assert AllPositive(last) by {
        forall t | 0 <= t < |last|
          ensures last[t] > 0
        {
          assert last[t] == flat[|Flatten(front)| + t];
        }
      }
      PositivityInherited(front);
      forall i | 0 <= i <= |groups|
        ensures AllPositive(Flatten(groups[..i]))
      {
        if i < |groups| {
          assert groups[..i] == front[..i];
        } else {
          assert groups[..i] == groups;
        }
      }
      forall i | 0 <= i < |groups|
        ensures AllPositive(groups[i])
      {
        if i < |groups| - 1 {
          assert groups[i] == front[i];
        }
      }
    }
  }

  /** Over positive values, the split rule never fires between two equal
      neighbours: the element before already reaches the next one. */
  lemma EqualNeighboursNeverCut(xs: seq<int>, groups: seq<seq<int>>, j: nat)
    requires AllPositive(xs)
    requires CutsFollowSplitRule(xs, groups)
    requires 1 <= j < |xs| && xs[j - 1] == xs[j]
    ensures j !in Cuts(groups)
  {
    assert AllNonNegative(xs[..j]);
    SumNonNegative(xs[..j]);
    assert xs[..j][j - 1] == xs[j - 1];
    assert !StartsGroup(xs, j);
  }

  /** On positive inputs, two equal neighbours of the sorted input are never
      split into different groups. */
  lemma EqualNeighboursShareAGroup(nums: seq<int>, j: nat)
    requires AllPositive(nums)
    requires 1 <= j < |Flatten(SubsetSumOrdering(nums).partition)|
    requires Flatten(SubsetSumOrdering(nums).partition)[j - 1] == Flatten(SubsetSumOrdering(nums).partition)[j]
    ensures j !in Cuts(SubsetSumOrdering(nums).partition)
  {
    var p := SubsetSumOrdering(nums).partition;
    PartitionIsPositive(nums);
    EqualNeighboursNeverCut(Flatten(p), p, j);
  }

  /** One group per element, in order. */
  function Singletons(xs: seq<int>): seq<seq<int>>
  {
    seq(|xs|, i requires 0 <= i < |xs| => [xs[i]])
  }

  /** A partition into non-empty groups that is cut at every position is the
      partition into singletons. */
  lemma {:induction false} AllCutsMeansSingletons(xs: seq<int>, groups: seq<seq<int>>)
    requires Flatten(groups) == xs
    requires AllNonEmpty(groups)
    requires forall j :: 1 <= j < |xs| ==> j in Cuts(groups)
    ensures groups == Singletons(xs)
    decreases |groups|
  {
    if |groups| > 0 {
      var front := groups[..|groups| - 1];
      var last := groups[|groups| - 1];
      var xs' := Flatten(front);
      assert xs == xs' + last;
      CutsInRange(front);
      assert Cuts(groups) == if |groups| <= 1 then {} else Cuts(front) + {|xs'|};
      assert |xs'| + 1 !in Cuts(groups);
      assert |last| == 1;
      forall j | 1 <= j < |xs'|
        ensures j in Cuts(front)
      {
        assert j in Cuts(groups);
      }
      AllCutsMeansSingletons(xs', front);
      assert groups == front + [last];
      assert last == [xs[|xs| - 1]];
      assert Singletons(xs) == Singletons(xs') + [[xs[|xs| - 1]]];
    }
  }

  /** The only partition of a super-increasing sorted sequence that follows
      the split rule is the partition into singletons. */
  lemma SplitEverywhereGivesSingletons(nums: seq<int>, groups: seq<seq<int>>)
    requires SortedAsc(nums)
    requires forall j :: 1 <= j < |nums| ==> StartsGroup(nums, j)
    requires AllNonEmpty(groups) && SortedAsc(Flatten(groups))
    requires multiset(Flatten(groups)) == multiset(nums)
    requires CutsFollowSplitRule(Flatten(groups), groups)
    ensures groups == Singletons(nums)
  {
    SortedAscUnique(Flatten(groups), nums);
    assert forall j :: 1 <= j < |nums| ==> j in Cuts(groups);
    AllCutsMeansSingletons(nums, groups);
  }

  /** Radices of a partition into singletons are all 2. */
  lemma SingletonRadices(xs: seq<int>, groups: seq<seq<int>>, radices: seq<nat>)
    requires groups == Singletons(xs)
    requires |radices| == |groups|
    requires forall i :: 0 <= i < |groups| ==> radices[i] == Pow2(|groups[i]|)
    ensures forall i :: 0 <= i < |radices| ==> radices[i] == 2
  {
    forall i | 0 <= i < |radices|
      ensures radices[i] == 2
    {
      assert groups[i] == [xs[i]];
      assert radices[i] == Pow2(1);
    }
  }

  /** A sorted, strictly super-increasing input (each element above the sum
      of all before it) is split into singletons, each of radix 2: plain
      binary place value. */
  lemma SuperIncreasingGivesSingletons(nums: seq<int>)
    requires SortedAsc(nums)
    requires forall j :: 1 <= j < |nums| ==> StartsGroup(nums, j)
    ensures SubsetSumOrdering(nums).partition == Singletons(nums)
    ensures forall i :: 0 <= i < |SubsetSumOrdering(nums).radices| ==> SubsetSumOrdering(nums).radices[i] == 2
  {
    var e := SubsetSumOrdering(nums);
    if |nums| > 0 {
      SplitEverywhereGivesSingletons(nums, e.partition);
    }
    SingletonRadices(nums, e.partition, e.radices);
  }

  /** In a positive partition whose groups each start above everything
      before them, no selection from the groups before an ascending group i
      reaches a non-empty selection from group i. */
  lemma SelectionsBelowGroup(p: seq<seq<int>>, i: nat, a: nat, b: nat)
    requires AllPositive(Flatten(p))
    requires EarlierGroupsBelow(p)
    requires 1 <= i < |p| && SortedAsc(p[i])
    requires 1 <= b < Pow2(|p[i]|)
    ensures SubsetSums.SubsetSum(Flatten(p[..i]), a) < SubsetSums.SubsetSum(p[i], b)
  {
    var earlier := Flatten(p[..i]);
    PositivityInherited(p);
    SubsetSums.SubsetSumBounds(earlier, a);
    assert Sum(earlier) < p[i][0];
    SubsetSums.NonEmptySelectionReaches(p[i], b, p[i][0]);
  }

  /** On positive inputs, no sub-multiset of the groups before group i (mask
      `a` over their concatenation) reaches any non-empty selection (mask
      `b`) from group i. */
  lemma EarlierGroupsNeverReach(nums: seq<int>, i: nat, a: nat, b: nat)
    requires AllPositive(nums)
    requires 1 <= i < |SubsetSumOrdering(nums).partition|
    requires 1 <= b < Pow2(|SubsetSumOrdering(nums).partition[i]|)
    ensures SubsetSums.SubsetSum(Flatten(SubsetSumOrdering(nums).partition[..i]), a)
          < SubsetSums.SubsetSum(SubsetSumOrdering(nums).partition[i], b)
  {
    PartitionIsPositive(nums);
    SelectionsBelowGroup(SubsetSumOrdering(nums).partition, i, a, b);
  }

  /** Where the last group of a partition starts: every cut is at or before
      it, and it is itself a cut unless the partition has a single group. */
  lemma LastGroupStart(groups: seq<seq<int>>)
    requires AllNonEmpty(groups) && |groups| >= 1
    ensures forall c :: c in Cuts(groups) ==> c <= |Flatten(groups[..|groups| - 1])|
    ensures |groups| == 1 <==> |Flatten(groups[..|groups| - 1])| == 0
    ensures |groups| > 1 ==> |Flatten(groups[..|groups| - 1])| in Cuts(groups)
  {
    var front := groups[..|groups| - 1];
    CutsInRange(front);
    FlattenLength(front);
  }

  /** A partition into non-empty groups is determined by its flattening and
      its cuts. */
  lemma {:induction false} PartitionDeterminedByCuts(g1: seq<seq<int>>, g2: seq<seq<int>>)
    requires AllNonEmpty(g1) && AllNonEmpty(g2)
    requires Flatten(g1) == Flatten(g2)
    requires Cuts(g1) == Cuts(g2)
    ensures g1 == g2
    decreases |g1|
  {
    FlattenLength(g1);
    FlattenLength(g2);
    if |g1| > 0 && |g2| > 0 {
      var f1, f2 := g1[..|g1| - 1], g2[..|g2| - 1];
      var s1, s2 := |Flatten(f1)|, |Flatten(f2)|;
      LastGroupStart(g1);
      LastGroupStart(g2);
      assert s1 == s2;
      var xs := Flatten(g1);
      assert xs == Flatten(f1) + g1[|g1| - 1];
      assert xs == Flatten(f2) + g2[|g2| - 1];
      assert g1[|g1| - 1] == xs[s1..] == g2[|g2| - 1];
      assert Flatten(f1) == xs[..s1] == Flatten(f2);
      CutsInRange(f1);
      CutsInRange(f2);
      assert Cuts(f1) == Cuts(g1) - {s1} by {
        if |g1| > 1 {
          assert Cuts(g1) == Cuts(f1) + {s1};
        }
      }
      assert Cuts(f2) == Cuts(g2) - {s2} by {
        if |g2| > 1 {
          assert Cuts(g2) == Cuts(f2) + {s2};
        }
      }
      PartitionDeterminedByCuts(f1, f2);
      assert g1 == f1 + [g1[|g1| - 1]];
      assert g2 == f2 + [g2[|g2| - 1]];
    }
  }

  /** At most one set of cuts follows the split rule on a sequence. */
  lemma SplitRuleCutsUnique(xs: seq<int>, c1: set<nat>, c2: set<nat>)
    requires SplitRuleCuts(xs, c1) && SplitRuleCuts(xs, c2)
    ensures c1 == c2
  {
    assert forall c :: c in c1 <==> 1 <= c < |xs| && StartsGroup(xs, c);
    assert forall c :: c in c2 <==> 1 <= c < |xs| && StartsGroup(xs, c);
  }

  /** Two partitions into non-empty groups of the same sequence that both
      follow the split rule are the same partition. */
  lemma SplitRuleDeterminesPartition(xs: seq<int>, g1: seq<seq<int>>, g2: seq<seq<int>>)
    requires AllNonEmpty(g1) && AllNonEmpty(g2)
    requires Flatten(g1) == xs && Flatten(g2) == xs
    requires CutsFollowSplitRule(xs, g1) && CutsFollowSplitRule(xs, g2)
    ensures g1 == g2
  {
    SplitRuleCutsUnique(xs, Cuts(g1), Cuts(g2));
    PartitionDeterminedByCuts(g1, g2);
  }

  /** The partition of a non-empty input is the one and only partition into
      non-empty groups whose flattening is the input sorted and whose cuts
      are exactly where the split rule fires. */
  lemma PartitionCharacterization(nums: seq<int>, groups: seq<seq<int>>)
    requires |nums| > 0
    ensures groups == SubsetSumOrdering(nums).partition
        <==> && AllNonEmpty(groups)
             && SortedAsc(Flatten(groups))
             && multiset(Flatten(groups)) == multiset(nums)
             && CutsFollowSplitRule(Flatten(groups), groups)
  {
    var p := SubsetSumOrdering(nums).partition;
    if && AllNonEmpty(groups)
       && SortedAsc(Flatten(groups))
       && multiset(Flatten(groups)) == multiset(nums)
       && CutsFollowSplitRule(Flatten(groups), groups)
    {
      SortedAscUnique(Flatten(groups), Flatten(p));
      SplitRuleDeterminesPartition(Flatten(p), groups, p);
    }
  }

  /** The whole sequence as one group follows the split rule when the rule
      never fires. */
  lemma OneGroupFollowsSplitRule(nums: seq<int>)
    requires |nums| > 0
    requires forall j :: 1 <= j < |nums| ==> !StartsGroup(nums, j)
    ensures AllNonEmpty([nums]) && Flatten([nums]) == nums
    ensures CutsFollowSplitRule(nums, [nums])
  {
    FlattenSnoc([], nums);
    assert [] + [nums] == [nums];
    assert Cuts([nums]) == {};
  }

  /** When no element after the first exceeds the sum of the elements
      before it, the whole sorted input is one group with radix 2^n. */
  lemma NoSplitGivesOneGroup(nums: seq<int>)
    requires SortedAsc(nums) && |nums| > 0
    requires forall j :: 1 <= j < |nums| ==> !StartsGroup(nums, j)
    ensures SubsetSumOrdering(nums).partition == [nums]
    ensures |SubsetSumOrdering(nums).radices| == 1
    ensures SubsetSumOrdering(nums).radices[0] == Pow2(|nums|)
  {
    OneGroupFollowsSplitRule(nums);
    PartitionCharacterization(nums, [nums]);
  }

  /** A one-group answer means the split rule never fired. */
  lemma OneGroupMeansNoSplit(nums: seq<int>)
    requires SortedAsc(nums) && |nums| > 0
    requires |SubsetSumOrdering(nums).partition| == 1
    ensures forall j :: 1 <= j < |nums| ==> !StartsGroup(nums, j)
  {
    var p := SubsetSumOrdering(nums).partition;
    assert Flatten(p) == nums by {
      SortedAscUnique(Flatten(p), nums);
    }
    assert Cuts(p) == {};
    forall j | 1 <= j < |nums|
      ensures !StartsGroup(nums, j)
    {
      assert j !in Cuts(p);
    }
  }
}
