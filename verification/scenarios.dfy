/** The inputs the program's driver runs, worked through the model: what the
    partitioner returns for each, and what the verifier then reports. */
module Scenarios {
  import opened Seqs
  import opened Partitioner
  import opened DigitMap
  import opened MixedRadix
  import opened Verifier

  /** A candidate partition that passes the characterization is the
      partitioner's answer, and its radices are 2 to the size of each group. */
  lemma EncodingIs(nums: seq<int>, xs: seq<int>, groups: seq<seq<int>>, radices: seq<nat>)
    requires |nums| > 0
    requires AllNonEmpty(groups) && Flatten(groups) == xs
    requires SortedAsc(xs)
    requires multiset(xs) == multiset(nums)
    requires CutsFollowSplitRule(xs, groups)
    requires Consistent(groups, radices)
    ensures SubsetSumOrdering(nums) == Encoding(groups, radices)
  {
    var e := SubsetSumOrdering(nums);
    PartitionCharacterization(nums, groups);
    RadicesDetermined(groups, e.radices, radices);
  }

  /** The radices of a partition are fixed by its group sizes. */
  lemma RadicesDetermined(groups: seq<seq<int>>, r1: seq<nat>, r2: seq<nat>)
    requires |r1| == |groups| && |r2| == |groups|
    requires forall i :: 0 <= i < |groups| ==> r1[i] == Pow2(|groups[i]|)
    requires forall i :: 0 <= i < |groups| ==> r2[i] == Pow2(|groups[i]|)
    ensures r1 == r2
  {
  }

  /** The unranked table of a group, row by row. */
  lemma EntriesAre(g: seq<int>, t: seq<Entry>)
    requires |t| == Pow2(|g|)
    requires forall m :: 0 <= m < |t| ==> t[m] == Entry(SubsetSums.SubsetSum(g, m), m)
    ensures Entries(g) == t
  {
  }

  lemma SubsetSumOfSingleton(x: int, m: nat)
    ensures SubsetSums.SubsetSum([x], m) == if SubsetSums.Bit(m, 0) == 1 then x else 0
  {
    assert SubsetSums.BitSum([x], m, 0) == 0;
  }

  lemma SubsetSumOfPair(a: int, b: int, m: nat)
    ensures SubsetSums.SubsetSum([a, b], m)
         == (if SubsetSums.Bit(m, 0) == 1 then a else 0) + (if SubsetSums.Bit(m, 1) == 1 then b else 0)
  {
    assert SubsetSums.BitSum([a, b], m, 0) == 0;
    assert SubsetSums.BitSum([a, b], m, 1) == if SubsetSums.Bit(m, 0) == 1 then a else 0;
  }

  /** A group of one non-negative value: digit 0 leaves it out, digit 1
      takes it. */
  lemma DigitMapOfSingleton(x: int)
    requires x >= 0
    ensures BuildDigitMap([x]) == [Entry(0, 0), Entry(x, 1)]
  {
    var t := [Entry(0, 0), Entry(x, 1)];
    assert Pow2(1) == 2;
    SubsetSumOfSingleton(x, 0);
    SubsetSumOfSingleton(x, 1);
    EntriesAre([x], t);
    DigitMapIsTheRankedTable([x], t);
  }

  /** A group of two non-negative values in ascending order: the digits
      select nothing, the smaller, the larger, both. */
  lemma DigitMapOfPair(a: int, b: int)
    requires 0 <= a <= b
    ensures BuildDigitMap([a, b]) == [Entry(0, 0), Entry(a, 1), Entry(b, 2), Entry(a + b, 3)]
  {
    var t := [Entry(0, 0), Entry(a, 1), Entry(b, 2), Entry(a + b, 3)];
    assert Entries([a, b]) == t by {
      assert Pow2(2) == 4;
      SubsetSumOfPair(a, b, 0);
      SubsetSumOfPair(a, b, 1);
      SubsetSumOfPair(a, b, 2);
      SubsetSumOfPair(a, b, 3);
      EntriesAre([a, b], t);
    }
    assert StrictlyAscending(t);
    DigitMapIsTheRankedTable([a, b], t);
  }

  lemma RepeatAfterSmallerSplits(a: int, b: int)
    requires 0 < a < b
    ensures AllNonEmpty([[a], [b, b]]) && Flatten([[a], [b, b]]) == [a, b, b]
    ensures SortedAsc([a, b, b])
    ensures CutsFollowSplitRule([a, b, b], [[a], [b, b]])
  {
    var xs := [a, b, b];
    FlattenSnoc([], [a]);
    CutsSnoc([], [a]);
    FlattenSnoc([[a]], [b, b]);
    CutsSnoc([[a]], [b, b]);
    assert Sum(xs[..1]) == a by { assert xs[..1] == [a] && [a][..0] == []; }
    assert Sum(xs[..2]) == a + b by { assert xs[..2] == [a, b] && [a, b][..1] == [a] && [a][..0] == []; }
  }

  /** A smaller value followed by a repeated larger one, such as
      `[1, 2, 2]`: the smaller value is a group of its own and the repeated
      value shares the second group. */
  lemma PartitionOfRepeatAfterSmaller(nums: seq<int>, a: int, b: int)
    requires 0 < a < b
    requires multiset(nums) == multiset([a, b, b])
    ensures SubsetSumOrdering(nums) == Encoding([[a], [b, b]], [2, 4])
  {
    RepeatAfterSmallerSplits(a, b);
    RepeatAfterSmallerConsistent(a, b);
    EncodingIs(nums, [a, b, b], [[a], [b, b]], [2, 4]);
  }

  /** Totalling over two groups adds one row of each digit map. */
  lemma TotalOfTwo(maps: seq<seq<Entry>>, digits: seq<nat>)
    requires |maps| == 2 && |digits| == 2
    requires digits[0] < |maps[0]| && digits[1] < |maps[1]|
    ensures Total(maps, digits) == maps[0][digits[0]].sum + maps[1][digits[1]].sum
  {
    assert Total(maps[1..][1..], digits[1..][1..]) == 0;
  }

  /** The digits of index i under one radix followed by more. */
  lemma DigitsOfCons(i: nat, r: nat, rest: seq<nat>)
    requires r > 0 && PositiveRadices(rest)
    ensures DigitsOf(i, [r] + rest) == [i % r] + DigitsOf(i / r, rest)
  {
    assert ([r] + rest)[1..] == rest;
  }

  /** The digits of index i under two radices. */
  lemma DigitsOfTwo(i: nat, r0: nat, r1: nat)
    requires r0 > 0 && r1 > 0
    ensures DigitsOf(i, [r0, r1]) == [i % r0, (i / r0) % r1]
  {
    DigitsOfCons(i / r0, r1, []);
    assert [r1] + [] == [r1];
    DigitsOfCons(i, r0, [r1]);
    assert [r0] + [r1] == [r0, r1];
  }

  /** The digits of index i under four radices. */
  lemma {:induction false} DigitsOfFour(i: nat, r0: nat, r1: nat, r2: nat, r3: nat)
    requires r0 > 0 && r1 > 0 && r2 > 0 && r3 > 0
    ensures DigitsOf(i, [r0, r1, r2, r3])
         == [i % r0, (i / r0) % r1, (i / r0 / r1) % r2, (i / r0 / r1 / r2) % r3]
  {
    DigitsOfTwo(i / r0 / r1, r2, r3);
    DigitsOfCons(i / r0, r1, [r2, r3]);
    assert [r1] + [r2, r3] == [r1, r2, r3];
    DigitsOfCons(i, r0, [r1, r2, r3]);
    assert [r0] + [r1, r2, r3] == [r0, r1, r2, r3];
  }

  lemma ProductOfTwo(r0: nat, r1: nat)
    ensures Product([r0, r1]) == r0 * r1
  {
    assert [r0, r1][1..] == [r1] && [r1][1..] == [];
    assert Product([r1]) == r1 * Product([]);
  }

  /** The digit maps of a two-group partition. */
  lemma DigitMapsOfTwo(p: seq<seq<int>>)
    requires |p| == 2
    ensures DigitMaps(p) == [BuildDigitMap(p[0]), BuildDigitMap(p[1])]
  {
  }

  /** The digit maps of a four-group partition. */
  lemma DigitMapsOfFour(p: seq<seq<int>>)
    requires |p| == 4
    ensures DigitMaps(p) == [BuildDigitMap(p[0]), BuildDigitMap(p[1]), BuildDigitMap(p[2]), BuildDigitMap(p[3])]
  {
  }

  /** With two groups, the total at an index whose digits are `[d0, d1]`
      is row d0 of the first digit map plus row d1 of the second. */
  lemma TotalOfTwoGroups(maps: seq<seq<Entry>>, r: seq<nat>, i: nat, d0: nat, d1: nat, total: int)
    requires MapsFit(maps, r) && |maps| == 2
    requires DigitsOf(i, r) == [d0, d1]
    requires maps[0][d0].sum + maps[1][d1].sum == total
    ensures TotalAt(maps, r, i) == total
  {
    TotalOfTwo(maps, [d0, d1]);
  }

  /** The digit maps of `[[a], [b, b]]`, written out. */
  function RepeatAfterSmallerMaps(a: int, b: int): seq<seq<Entry>>
  {
    [[Entry(0, 0), Entry(a, 1)], [Entry(0, 0), Entry(b, 1), Entry(b, 2), Entry(b + b, 3)]]
  }

  lemma MapsOfRepeatAfterSmaller(a: int, b: int)
    requires 0 < a < b
    ensures DigitMaps([[a], [b, b]]) == RepeatAfterSmallerMaps(a, b)
  {
    DigitMapsOfTwo([[a], [b, b]]);
    DigitMapOfSingleton(a);
    DigitMapOfPair(b, b);
  }

  lemma RepeatAfterSmallerConsistent(a: int, b: int)
    ensures Consistent([[a], [b, b]], [2, 4])
  {
    assert Pow2(1) == 2 && Pow2(2) == 4;
  }

  /** The digits visited first under the radices `[2, 4]`. */
  lemma DigitsUnderTwoFour()
    ensures DigitsOf(0, [2, 4]) == [0, 0] && DigitsOf(1, [2, 4]) == [1, 0]
    ensures DigitsOf(2, [2, 4]) == [0, 1] && DigitsOf(3, [2, 4]) == [1, 1]
    ensures DigitsOf(4, [2, 4]) == [0, 2]
  {
    DigitsOfTwo(0, 2, 4);
    assert 0 % 2 == 0 && 0 / 2 == 0 && 0 % 4 == 0;
    DigitsOfTwo(1, 2, 4);
    assert 1 % 2 == 1 && 1 / 2 == 0 && 0 % 4 == 0;
    DigitsOfTwo(2, 2, 4);
    assert 2 % 2 == 0 && 2 / 2 == 1 && 1 % 4 == 1;
    DigitsOfTwo(3, 2, 4);
    assert 3 % 2 == 1 && 3 / 2 == 1 && 1 % 4 == 1;
    DigitsOfTwo(4, 2, 4);
    assert 4 % 2 == 0 && 4 / 2 == 2 && 2 % 4 == 2;
  }

  /** The rows of the two digit maps that indices 0 to 4 select. */
  lemma RepeatAfterSmallerRows(maps: seq<seq<Entry>>, a: int, b: int)
    requires maps == RepeatAfterSmallerMaps(a, b)
    ensures MapsFit(maps, [2, 4])
    ensures maps[0][0].sum + maps[1][0].sum == 0
    ensures maps[0][1].sum + maps[1][0].sum == a
    ensures maps[0][0].sum + maps[1][1].sum == b
    ensures maps[0][1].sum + maps[1][1].sum == a + b
    ensures maps[0][0].sum + maps[1][2].sum == b
  {
  }

  /** The first five totals of `[[a], [b, b]]`. */
  lemma RepeatAfterSmallerTotals(a: int, b: int)
    ensures MapsFit(RepeatAfterSmallerMaps(a, b), [2, 4])
    ensures TotalAt(RepeatAfterSmallerMaps(a, b), [2, 4], 0) == 0
    ensures TotalAt(RepeatAfterSmallerMaps(a, b), [2, 4], 1) == a
    ensures TotalAt(RepeatAfterSmallerMaps(a, b), [2, 4], 2) == b
    ensures TotalAt(RepeatAfterSmallerMaps(a, b), [2, 4], 3) == a + b
    ensures TotalAt(RepeatAfterSmallerMaps(a, b), [2, 4], 4) == b
  {
    var maps, r := RepeatAfterSmallerMaps(a, b), [2, 4];
    RepeatAfterSmallerRows(maps, a, b);
    DigitsUnderTwoFour();
    TotalOfTwoGroups(maps, r, 0, 0, 0, 0);
    TotalOfTwoGroups(maps, r, 1, 1, 0, a);
    TotalOfTwoGroups(maps, r, 2, 0, 1, b);
    TotalOfTwoGroups(maps, r, 3, 1, 1, a + b);
    TotalOfTwoGroups(maps, r, 4, 0, 2, b);
  }

  /** On `[[a], [b, b]]` with 0 < a < b the totals run 0, a, b, a + b and
      then fall back to b at index 4, whose digits leave out the first group
      and take one copy of b from the second. */
  lemma RepeatAfterSmallerFirstDrop(a: int, b: int)
    requires 0 < a < b
    ensures MapsFit(RepeatAfterSmallerMaps(a, b), [2, 4])
    ensures IsFirstDrop(RepeatAfterSmallerMaps(a, b), [2, 4], Diagnostic(4, [0, 2], b, a + b))
  {
    var maps, r := RepeatAfterSmallerMaps(a, b), [2, 4];
    RepeatAfterSmallerTotals(a, b);
    NonDecreasingStep(maps, r, 0);
    NonDecreasingStep(maps, r, 1);
    NonDecreasingStep(maps, r, 2);
    NonDecreasingStep(maps, r, 3);
    ProductOfTwo(2, 4);
    DigitsUnderTwoFour();
  }

  /** When `d` is the first drop, the verifier's contract leaves it no
      verdict but `Invalid(d)`. */
  lemma VerdictIsTheDrop(maps: seq<seq<Entry>>, r: seq<nat>, d: Diagnostic, v: Verdict)
    requires MapsFit(maps, r) && IsFirstDrop(maps, r, d)
    requires v == Valid <==> NonDecreasingBelow(maps, r, Product(r))
    requires v.Invalid? ==> IsFirstDrop(maps, r, v.diagnostic)
    ensures v == Invalid(d)
  {
    assert !RisesAt(maps, r, d.atIndex);
    FirstDropUnique(maps, r, v.diagnostic, d);
  }

  /** Any arrangement of a smaller value and a repeated larger one, such as
      `[1, 2, 2]`, is rejected by the verifier at index 4: the totals fall
      from a + b to b. */
  method RunRepeatAfterSmaller(nums: seq<int>, a: int, b: int) returns (e: Encoding, v: Verdict)
    requires 0 < a < b
    requires multiset(nums) == multiset([a, b, b])
    ensures e == Encoding([[a], [b, b]], [2, 4])
    ensures v == Invalid(Diagnostic(4, [0, 2], b, a + b))
  {
    PartitionOfRepeatAfterSmaller(nums, a, b);
    e := SubsetSumOrdering(nums);
    RepeatAfterSmallerFirstDrop(a, b);
    MapsOfRepeatAfterSmaller(a, b);
    v := Verify(e.partition, e.radices);
    VerdictIsTheDrop(RepeatAfterSmallerMaps(a, b), [2, 4], Diagnostic(4, [0, 2], b, a + b), v);
  }

  /** Totalling over four groups adds one row of each digit map. */
  lemma TotalOfFour(maps: seq<seq<Entry>>, digits: seq<nat>)
    requires |maps| == 4 && |digits| == 4
    requires forall g :: 0 <= g < 4 ==> digits[g] < |maps[g]|
    ensures Total(maps, digits)
         == maps[0][digits[0]].sum + maps[1][digits[1]].sum + maps[2][digits[2]].sum + maps[3][digits[3]].sum
  {
    var m1, d1 := maps[1..], digits[1..];
    var m2, d2 := m1[1..], d1[1..];
    var m3, d3 := m2[1..], d2[1..];
    assert Total(m3[1..], d3[1..]) == 0;
    assert Total(m3, d3) == maps[3][digits[3]].sum;
    assert Total(m2, d2) == maps[2][digits[2]].sum + maps[3][digits[3]].sum;
  }

  /** With four groups, the total at an index whose digits are
      `[d0, d1, d2, d3]` adds row d_g of each group's digit map. */
  lemma TotalOfFourGroups(maps: seq<seq<Entry>>, r: seq<nat>, i: nat,
                          d0: nat, d1: nat, d2: nat, d3: nat, total: int)
    requires MapsFit(maps, r) && |maps| == 4
    requires DigitsOf(i, r) == [d0, d1, d2, d3]
    requires maps[0][d0].sum + maps[1][d1].sum + maps[2][d2].sum + maps[3][d3].sum == total
    ensures TotalAt(maps, r, i) == total
  {
    TotalOfFour(maps, [d0, d1, d2, d3]);
  }

  lemma ProductOfFour(r0: nat, r1: nat, r2: nat, r3: nat)
    ensures Product([r0, r1, r2, r3]) == r0 * r1 * r2 * r3
  {
    assert [r0, r1, r2, r3][1..] == [r1, r2, r3];
    assert [r1, r2, r3][1..] == [r2, r3];
    ProductOfTwo(r2, r3);
  }

  /** Four values where the third starts a group but the fourth does not,
      and a fifth beyond them all, such as `[1, 20, 5, 6, 2]` sorted to
      `[1, 2, 5, 6, 20]`. */
  predicate MotivatingShape(a: int, b: int, c: int, d: int, e: int)
  {
    0 < a < b && a + b < c <= d < a + b + c && a + b + c + d < e
  }

  lemma MotivatingGroups(a: int, b: int, c: int, d: int, e: int)
    ensures AllNonEmpty([[a], [b], [c, d], [e]]) && Flatten([[a], [b], [c, d], [e]]) == [a, b, c, d, e]
    ensures Cuts([[a], [b], [c, d], [e]]) == {1, 2, 4}
  {
    FlattenSnoc([], [a]);
    CutsSnoc([], [a]);
    assert [[a], [b]] == [[a]] + [[b]];
    FlattenSnoc([[a]], [b]);
    CutsSnoc([[a]], [b]);
    assert [[a], [b], [c, d]] == [[a], [b]] + [[c, d]];
    FlattenSnoc([[a], [b]], [c, d]);
    CutsSnoc([[a], [b]], [c, d]);
    assert [[a], [b], [c, d], [e]] == [[a], [b], [c, d]] + [[e]];
    FlattenSnoc([[a], [b], [c, d]], [e]);
    CutsSnoc([[a], [b], [c, d]], [e]);
  }

  lemma PrefixSumsOfFive(a: int, b: int, c: int, d: int, e: int)
    ensures Sum([a, b, c, d, e][..1]) == a
    ensures Sum([a, b, c, d, e][..2]) == a + b
    ensures Sum([a, b, c, d, e][..3]) == a + b + c
    ensures Sum([a, b, c, d, e][..4]) == a + b + c + d
  {
    var xs := [a, b, c, d, e];
    assert Sum(xs[..1]) == a by { assert xs[..1] == [a] && [a][..0] == []; }
    assert Sum(xs[..2]) == a + b by { assert xs[..2] == [a, b] && [a, b][..1] == [a]; }
    assert xs[..3] == [a, b] + [c];
    SumSnoc([a, b], c);
    assert xs[..4] == [a, b, c] + [d] && [a, b, c] == [a, b] + [c];
    SumSnoc([a, b, c], d);
  }

  lemma MotivatingSplits(a: int, b: int, c: int, d: int, e: int)
    requires MotivatingShape(a, b, c, d, e)
    ensures AllNonEmpty([[a], [b], [c, d], [e]]) && Flatten([[a], [b], [c, d], [e]]) == [a, b, c, d, e]
    ensures SortedAsc([a, b, c, d, e])
    ensures CutsFollowSplitRule([a, b, c, d, e], [[a], [b], [c, d], [e]])
  {
    MotivatingGroups(a, b, c, d, e);
    PrefixSumsOfFive(a, b, c, d, e);
  }

  lemma PartitionOfMotivating(nums: seq<int>, a: int, b: int, c: int, d: int, e: int)
    requires MotivatingShape(a, b, c, d, e)
    requires multiset(nums) == multiset([a, b, c, d, e])
    ensures SubsetSumOrdering(nums) == Encoding([[a], [b], [c, d], [e]], [2, 2, 4, 2])
  {
    MotivatingSplits(a, b, c, d, e);
    MotivatingConsistent(a, b, c, d, e);
    EncodingIs(nums, [a, b, c, d, e], [[a], [b], [c, d], [e]], [2, 2, 4, 2]);
  }

  /** The digit maps of `[[a], [b], [c, d], [e]]`, written out. */
  function MotivatingMaps(a: int, b: int, c: int, d: int, e: int): seq<seq<Entry>>
  {
    [[Entry(0, 0), Entry(a, 1)], [Entry(0, 0), Entry(b, 1)],
     [Entry(0, 0), Entry(c, 1), Entry(d, 2), Entry(c + d, 3)], [Entry(0, 0), Entry(e, 1)]]
  }

  lemma MapsOfMotivating(a: int, b: int, c: int, d: int, e: int)
    requires MotivatingShape(a, b, c, d, e)
    ensures DigitMaps([[a], [b], [c, d], [e]]) == MotivatingMaps(a, b, c, d, e)
  {
    DigitMapsOfFour([[a], [b], [c, d], [e]]);
    DigitMapOfSingleton(a);
    DigitMapOfSingleton(b);
    DigitMapOfPair(c, d);
    DigitMapOfSingleton(e);
  }

  lemma MotivatingConsistent(a: int, b: int, c: int, d: int, e: int)
    ensures Consistent([[a], [b], [c, d], [e]], [2, 2, 4, 2])
  {
    assert Pow2(1) == 2 && Pow2(2) == 4;
  }

  /** The digits visited at indices 0 to 2 under the radices `[2, 2, 4, 2]`. */
  lemma DigitsUnderMotivatingLow()
    ensures DigitsOf(0, [2, 2, 4, 2]) == [0, 0, 0, 0] && DigitsOf(1, [2, 2, 4, 2]) == [1, 0, 0, 0]
    ensures DigitsOf(2, [2, 2, 4, 2]) == [0, 1, 0, 0]
  {
    DigitsOfFour(0, 2, 2, 4, 2);
    assert 0 % 2 == 0 && 0 / 2 == 0 && 0 % 2 == 0 && 0 / 2 == 0;
    assert 0 % 4 == 0 && 0 / 4 == 0 && 0 % 2 == 0;
    DigitsOfFour(1, 2, 2, 4, 2);
    assert 1 % 2 == 1 && 1 / 2 == 0 && 0 % 2 == 0 && 0 / 2 == 0;
    assert 0 % 4 == 0 && 0 / 4 == 0 && 0 % 2 == 0;
    DigitsOfFour(2, 2, 2, 4, 2);
    assert 2 % 2 == 0 && 2 / 2 == 1 && 1 % 2 == 1 && 1 / 2 == 0;
    assert 0 % 4 == 0 && 0 / 4 == 0 && 0 % 2 == 0;
  }

  /** The digits visited at indices 3 to 5 under the radices `[2, 2, 4, 2]`. */
  lemma DigitsUnderMotivatingMid()
    ensures DigitsOf(3, [2, 2, 4, 2]) == [1, 1, 0, 0] && DigitsOf(4, [2, 2, 4, 2]) == [0, 0, 1, 0]
    ensures DigitsOf(5, [2, 2, 4, 2]) == [1, 0, 1, 0]
  {
    DigitsOfFour(3, 2, 2, 4, 2);
    assert 3 % 2 == 1 && 3 / 2 == 1 && 1 % 2 == 1 && 1 / 2 == 0;
    assert 0 % 4 == 0 && 0 / 4 == 0 && 0 % 2 == 0;
    DigitsOfFour(4, 2, 2, 4, 2);
    assert 4 % 2 == 0 && 4 / 2 == 2 && 2 % 2 == 0 && 2 / 2 == 1;
    assert 1 % 4 == 1 && 1 / 4 == 0 && 0 % 2 == 0;
    DigitsOfFour(5, 2, 2, 4, 2);
    assert 5 % 2 == 1 && 5 / 2 == 2 && 2 % 2 == 0 && 2 / 2 == 1;
    assert 1 % 4 == 1 && 1 / 4 == 0 && 0 % 2 == 0;
  }

  /** The digits visited at indices 6 to 8 under the radices `[2, 2, 4, 2]`. */
  lemma DigitsUnderMotivatingHigh()
    ensures DigitsOf(6, [2, 2, 4, 2]) == [0, 1, 1, 0] && DigitsOf(7, [2, 2, 4, 2]) == [1, 1, 1, 0]
    ensures DigitsOf(8, [2, 2, 4, 2]) == [0, 0, 2, 0]
  {
    DigitsOfFour(6, 2, 2, 4, 2);
    assert 6 % 2 == 0 && 6 / 2 == 3 && 3 % 2 == 1 && 3 / 2 == 1;
    assert 1 % 4 == 1 && 1 / 4 == 0 && 0 % 2 == 0;
    DigitsOfFour(7, 2, 2, 4, 2);
    assert 7 % 2 == 1 && 7 / 2 == 3 && 3 % 2 == 1 && 3 / 2 == 1;
    assert 1 % 4 == 1 && 1 / 4 == 0 && 0 % 2 == 0;
    DigitsOfFour(8, 2, 2, 4, 2);
    assert 8 % 2 == 0 && 8 / 2 == 4 && 4 % 2 == 0 && 4 / 2 == 2;
    assert 2 % 4 == 2 && 2 / 4 == 0 && 0 % 2 == 0;
  }

  /** The rows of the four digit maps that indices 0 to 8 select. */
  lemma MotivatingRows(maps: seq<seq<Entry>>, a: int, b: int, c: int, d: int, e: int)
    requires maps == MotivatingMaps(a, b, c, d, e)
    ensures MapsFit(maps, [2, 2, 4, 2])
    ensures maps[0][0].sum + maps[1][0].sum + maps[2][0].sum + maps[3][0].sum == 0
    ensures maps[0][1].sum + maps[1][0].sum + maps[2][0].sum + maps[3][0].sum == a
    ensures maps[0][0].sum + maps[1][1].sum + maps[2][0].sum + maps[3][0].sum == b
    ensures maps[0][1].sum + maps[1][1].sum + maps[2][0].sum + maps[3][0].sum == a + b
    ensures maps[0][0].sum + maps[1][0].sum + maps[2][1].sum + maps[3][0].sum == c
    ensures maps[0][1].sum + maps[1][0].sum + maps[2][1].sum + maps[3][0].sum == a + c
    ensures maps[0][0].sum + maps[1][1].sum + maps[2][1].sum + maps[3][0].sum == b + c
    ensures maps[0][1].sum + maps[1][1].sum + maps[2][1].sum + maps[3][0].sum == a + b + c
    ensures maps[0][0].sum + maps[1][0].sum + maps[2][2].sum + maps[3][0].sum == d
  {
  }

  /** Totals 0 to 3 of `[[a], [b], [c, d], [e]]`: the subsets of `{a, b}`. */
  lemma MotivatingTotalsLow(a: int, b: int, c: int, d: int, e: int)
    ensures MapsFit(MotivatingMaps(a, b, c, d, e), [2, 2, 4, 2])
    ensures TotalAt(MotivatingMaps(a, b, c, d, e), [2, 2, 4, 2], 0) == 0
    ensures TotalAt(MotivatingMaps(a, b, c, d, e), [2, 2, 4, 2], 1) == a
    ensures TotalAt(MotivatingMaps(a, b, c, d, e), [2, 2, 4, 2], 2) == b
    ensures TotalAt(MotivatingMaps(a, b, c, d, e), [2, 2, 4, 2], 3) == a + b
  {
    var maps, r := MotivatingMaps(a, b, c, d, e), [2, 2, 4, 2];
    MotivatingRows(maps, a, b, c, d, e);
    DigitsUnderMotivatingLow();
    DigitsUnderMotivatingMid();
    TotalOfFourGroups(maps, r, 0, 0, 0, 0, 0, 0);
    TotalOfFourGroups(maps, r, 1, 1, 0, 0, 0, a);
    TotalOfFourGroups(maps, r, 2, 0, 1, 0, 0, b);
    TotalOfFourGroups(maps, r, 3, 1, 1, 0, 0, a + b);
  }

  /** Totals 4 to 8 of `[[a], [b], [c, d], [e]]`: c with each subset of
      `{a, b}`, then d alone. */
  lemma MotivatingTotalsHigh(a: int, b: int, c: int, d: int, e: int)
    ensures MapsFit(MotivatingMaps(a, b, c, d, e), [2, 2, 4, 2])
    ensures TotalAt(MotivatingMaps(a, b, c, d, e), [2, 2, 4, 2], 4) == c
    ensures TotalAt(MotivatingMaps(a, b, c, d, e), [2, 2, 4, 2], 5) == a + c
    ensures TotalAt(MotivatingMaps(a, b, c, d, e), [2, 2, 4, 2], 6) == b + c
    ensures TotalAt(MotivatingMaps(a, b, c, d, e), [2, 2, 4, 2], 7) == a + b + c
    ensures TotalAt(MotivatingMaps(a, b, c, d, e), [2, 2, 4, 2], 8) == d
  {
    var maps, r := MotivatingMaps(a, b, c, d, e), [2, 2, 4, 2];
    MotivatingRows(maps, a, b, c, d, e);
    DigitsUnderMotivatingMid();
    DigitsUnderMotivatingHigh();
    TotalOfFourGroups(maps, r, 4, 0, 0, 1, 0, c);
    TotalOfFourGroups(maps, r, 5, 1, 0, 1, 0, a + c);
    TotalOfFourGroups(maps, r, 6, 0, 1, 1, 0, b + c);
    TotalOfFourGroups(maps, r, 7, 1, 1, 1, 0, a + b + c);
    TotalOfFourGroups(maps, r, 8, 0, 0, 2, 0, d);
  }

  /** The totals of the motivating shape do not decrease before index 5. */
  lemma MotivatingRisesLow(a: int, b: int, c: int, d: int, e: int)
    requires MotivatingShape(a, b, c, d, e)
    ensures MapsFit(MotivatingMaps(a, b, c, d, e), [2, 2, 4, 2])
    ensures NonDecreasingBelow(MotivatingMaps(a, b, c, d, e), [2, 2, 4, 2], 5)
  {
    var maps, r := MotivatingMaps(a, b, c, d, e), [2, 2, 4, 2];
    MotivatingTotalsLow(a, b, c, d, e);
    MotivatingTotalsHigh(a, b, c, d, e);
    NonDecreasingStep(maps, r, 0);
    NonDecreasingStep(maps, r, 1);
    NonDecreasingStep(maps, r, 2);
    NonDecreasingStep(maps, r, 3);
    NonDecreasingStep(maps, r, 4);
  }

  /** On the motivating shape the totals climb through every subset of
      `{a, b, c}` and then fall to d at index 8, whose digits take d alone
      from the third group. */
  lemma MotivatingFirstDrop(a: int, b: int, c: int, d: int, e: int)
    requires MotivatingShape(a, b, c, d, e)
    ensures MapsFit(MotivatingMaps(a, b, c, d, e), [2, 2, 4, 2])
    ensures IsFirstDrop(MotivatingMaps(a, b, c, d, e), [2, 2, 4, 2], Diagnostic(8, [0, 0, 2, 0], d, a + b + c))
  {
    var maps, r := MotivatingMaps(a, b, c, d, e), [2, 2, 4, 2];
    MotivatingRisesLow(a, b, c, d, e);
    MotivatingTotalsHigh(a, b, c, d, e);
    NonDecreasingStep(maps, r, 5);
    NonDecreasingStep(maps, r, 6);
    NonDecreasingStep(maps, r, 7);
    ProductOfFour(2, 2, 4, 2);
    DigitsUnderMotivatingHigh();
  }

  /** The program's own example `[1, 20, 5, 6, 2]`, and every input of the
      same shape, is split into `[[a], [b], [c, d], [e]]` and then rejected
      by the verifier at index 8: the totals fall from a + b + c to d. */
  method RunMotivating(nums: seq<int>, a: int, b: int, c: int, d: int, e: int) returns (enc: Encoding, v: Verdict)
    requires MotivatingShape(a, b, c, d, e)
    requires multiset(nums) == multiset([a, b, c, d, e])
    ensures enc == Encoding([[a], [b], [c, d], [e]], [2, 2, 4, 2])
    ensures v == Invalid(Diagnostic(8, [0, 0, 2, 0], d, a + b + c))
  {
    PartitionOfMotivating(nums, a, b, c, d, e);
    enc := SubsetSumOrdering(nums);
    MotivatingFirstDrop(a, b, c, d, e);
    MapsOfMotivating(a, b, c, d, e);
    v := Verify(enc.partition, enc.radices);
    VerdictIsTheDrop(MotivatingMaps(a, b, c, d, e), [2, 2, 4, 2], Diagnostic(8, [0, 0, 2, 0], d, a + b + c), v);
  }

  lemma SubsetSumOfTriple(b: int, c: int, d: int, m: nat)
    ensures SubsetSums.SubsetSum([b, c, d], m)
         == (if SubsetSums.Bit(m, 0) == 1 then b else 0)
          + (if SubsetSums.Bit(m, 1) == 1 then c else 0)
          + (if SubsetSums.Bit(m, 2) == 1 then d else 0)
  {
    assert SubsetSums.BitSum([b, c, d], m, 0) == 0;
    assert SubsetSums.BitSum([b, c, d], m, 1) == if SubsetSums.Bit(m, 0) == 1 then b else 0;
    assert SubsetSums.BitSum([b, c, d], m, 2)
        == (if SubsetSums.Bit(m, 0) == 1 then b else 0) + (if SubsetSums.Bit(m, 1) == 1 then c else 0);
  }

  /** A table whose neighbours are in strictly ascending (sum, mask) order
      is strictly ascending throughout. */
  lemma {:induction false} AscendingByNeighbours(t: seq<Entry>)
    requires forall i :: 0 <= i < |t| - 1 ==> EntryLt(t[i], t[i + 1])
    ensures StrictlyAscending(t)
    decreases |t|
  {
    if |t| > 1 {
      var front := t[..|t| - 1];
      AscendingByNeighbours(front);
      forall d | 0 <= d < |t| - 1
        ensures EntryLt(t[d], t[|t| - 1])
      {
        if d < |t| - 2 {
          assert EntryLt(front[d], front[|t| - 2]);
        }
      }
    }
  }

  /** The unranked table of a group of three values, by mask. */
  lemma EntriesOfTriple(b: int, c: int, d: int)
    ensures Entries([b, c, d])
         == [Entry(0, 0), Entry(b, 1), Entry(c, 2), Entry(b + c, 3),
             Entry(d, 4), Entry(b + d, 5), Entry(c + d, 6), Entry(b + c + d, 7)]
  {
    assert Pow2(3) == 8;
    SubsetSumOfTriple(b, c, d, 0);
    SubsetSumOfTriple(b, c, d, 1);
    SubsetSumOfTriple(b, c, d, 2);
    SubsetSumOfTriple(b, c, d, 3);
    SubsetSumOfTriple(b, c, d, 4);
    SubsetSumOfTriple(b, c, d, 5);
    SubsetSumOfTriple(b, c, d, 6);
    SubsetSumOfTriple(b, c, d, 7);
    EntriesAre([b, c, d], [Entry(0, 0), Entry(b, 1), Entry(c, 2), Entry(b + c, 3),
                           Entry(d, 4), Entry(b + d, 5), Entry(c + d, 6), Entry(b + c + d, 7)]);
  }

  /** With 0 < b < c < d < b + c the eight subset sums of `[b, c, d]`
      ascend as nothing, b, c, d, b + c, b + d, c + d, all three. */
  lemma TripleRanking(b: int, c: int, d: int)
    requires 0 < b < c < d < b + c
    ensures StrictlyAscending([Entry(0, 0), Entry(b, 1), Entry(c, 2), Entry(d, 4),
                               Entry(b + c, 3), Entry(b + d, 5), Entry(c + d, 6), Entry(b + c + d, 7)])
  {
    var t := [Entry(0, 0), Entry(b, 1), Entry(c, 2), Entry(d, 4),
              Entry(b + c, 3), Entry(b + d, 5), Entry(c + d, 6), Entry(b + c + d, 7)];
    forall i | 0 <= i < |t| - 1
      ensures EntryLt(t[i], t[i + 1])
    {
      if i == 0 {
      } else if i == 1 {
      } else if i == 2 {
      } else if i == 3 {
      } else if i == 4 {
      } else if i == 5 {
      } else {
        assert i == 6;
      }
    }
    AscendingByNeighbours(t);
  }

  /** The ranked rows of `[b, c, d]` are its table with rows 3 and 4
      swapped. */
  lemma TriplePermutation(b: int, c: int, d: int)
    ensures multiset([Entry(0, 0), Entry(b, 1), Entry(c, 2), Entry(d, 4),
                      Entry(b + c, 3), Entry(b + d, 5), Entry(c + d, 6), Entry(b + c + d, 7)])
         == multiset(Entries([b, c, d]))
  {
    var front := [Entry(0, 0), Entry(b, 1), Entry(c, 2)];
    var back := [Entry(b + d, 5), Entry(c + d, 6), Entry(b + c + d, 7)];
    var pair, lone := Entry(b + c, 3), Entry(d, 4);
    assert [Entry(0, 0), Entry(b, 1), Entry(c, 2), Entry(d, 4),
            Entry(b + c, 3), Entry(b + d, 5), Entry(c + d, 6), Entry(b + c + d, 7)]
        == front + [lone, pair] + back;
    assert [Entry(0, 0), Entry(b, 1), Entry(c, 2), Entry(b + c, 3),
            Entry(d, 4), Entry(b + d, 5), Entry(c + d, 6), Entry(b + c + d, 7)]
        == front + [pair, lone] + back;
    assert multiset([lone, pair]) == multiset([pair, lone]);
    EntriesOfTriple(b, c, d);
  }

  /** A group of three ascending values whose largest is below the sum of
      the other two: the lone values come first, then the pairs, then all
      three, so digit 4 selects the first two values together. */
  lemma DigitMapOfTriple(b: int, c: int, d: int)
    requires 0 < b < c < d < b + c
    ensures BuildDigitMap([b, c, d])
         == [Entry(0, 0), Entry(b, 1), Entry(c, 2), Entry(d, 4),
             Entry(b + c, 3), Entry(b + d, 5), Entry(c + d, 6), Entry(b + c + d, 7)]
  {
    TriplePermutation(b, c, d);
    TripleRanking(b, c, d);
    DigitMapIsTheRankedTable([b, c, d], [Entry(0, 0), Entry(b, 1), Entry(c, 2), Entry(d, 4),
                                         Entry(b + c, 3), Entry(b + d, 5), Entry(c + d, 6), Entry(b + c + d, 7)]);
  }

  /** A lone smallest value and then three values close together, such as
      `[3, 5, 6, 7]`: the second value exceeds the first, so the split rule
      fires there, and no later value exceeds the sum before it. */
  predicate LoneThenTripleShape(a: int, b: int, c: int, d: int)
  {
    0 < a < b < c < d < b + c && c < a + b
  }

  lemma LoneThenTripleGroups(a: int, b: int, c: int, d: int)
    ensures AllNonEmpty([[a], [b, c, d]]) && Flatten([[a], [b, c, d]]) == [a, b, c, d]
    ensures Cuts([[a], [b, c, d]]) == {1}
  {
    FlattenSnoc([], [a]);
    CutsSnoc([], [a]);
    assert [[a], [b, c, d]] == [[a]] + [[b, c, d]];
    FlattenSnoc([[a]], [b, c, d]);
    CutsSnoc([[a]], [b, c, d]);
  }

  lemma PrefixSumsOfFour(a: int, b: int, c: int, d: int)
    ensures Sum([a, b, c, d][..1]) == a
    ensures Sum([a, b, c, d][..2]) == a + b
    ensures Sum([a, b, c, d][..3]) == a + b + c
  {
    var xs := [a, b, c, d];
    assert Sum(xs[..1]) == a by { assert xs[..1] == [a] && [a][..0] == []; }
    assert Sum(xs[..2]) == a + b by { assert xs[..2] == [a, b] && [a, b][..1] == [a]; }
    assert xs[..3] == [a, b] + [c];
    SumSnoc([a, b], c);
  }

  lemma LoneThenTripleSplits(a: int, b: int, c: int, d: int)
    requires LoneThenTripleShape(a, b, c, d)
    ensures AllNonEmpty([[a], [b, c, d]]) && Flatten([[a], [b, c, d]]) == [a, b, c, d]
    ensures SortedAsc([a, b, c, d])
    ensures CutsFollowSplitRule([a, b, c, d], [[a], [b, c, d]])
  {
    LoneThenTripleGroups(a, b, c, d);
    PrefixSumsOfFour(a, b, c, d);
  }

  /** The partitioner cuts `[3, 5, 6, 7]` after its first value. */
  lemma PartitionOfLoneThenTriple(nums: seq<int>, a: int, b: int, c: int, d: int)
    requires LoneThenTripleShape(a, b, c, d)
    requires multiset(nums) == multiset([a, b, c, d])
    ensures SubsetSumOrdering(nums) == Encoding([[a], [b, c, d]], [2, 8])
  {
    LoneThenTripleSplits(a, b, c, d);
    LoneThenTripleConsistent(a, b, c, d);
    EncodingIs(nums, [a, b, c, d], [[a], [b, c, d]], [2, 8]);
  }

  lemma LoneThenTripleConsistent(a: int, b: int, c: int, d: int)
    ensures Consistent([[a], [b, c, d]], [2, 8])
  {
    assert Pow2(1) == 2 && Pow2(3) == 8;
  }

  /** The digits visited first under the radices `[2, 8]`. */
  lemma DigitsUnderTwoEight()
    ensures DigitsOf(0, [2, 8]) == [0, 0] && DigitsOf(1, [2, 8]) == [1, 0]
    ensures DigitsOf(2, [2, 8]) == [0, 1] && DigitsOf(3, [2, 8]) == [1, 1]
    ensures DigitsOf(4, [2, 8]) == [0, 2]
  {
    DigitsOfTwo(0, 2, 8);
    assert 0 % 2 == 0 && 0 / 2 == 0 && 0 % 8 == 0;
    DigitsOfTwo(1, 2, 8);
    assert 1 % 2 == 1 && 1 / 2 == 0 && 0 % 8 == 0;
    DigitsOfTwo(2, 2, 8);
    assert 2 % 2 == 0 && 2 / 2 == 1 && 1 % 8 == 1;
    DigitsOfTwo(3, 2, 8);
    assert 3 % 2 == 1 && 3 / 2 == 1 && 1 % 8 == 1;
    DigitsOfTwo(4, 2, 8);
    assert 4 % 2 == 0 && 4 / 2 == 2 && 2 % 8 == 2;
  }

  /** The digit maps of `[[a], [b, c, d]]`, written out. */
  function LoneThenTripleMaps(a: int, b: int, c: int, d: int): seq<seq<Entry>>
  {
    [[Entry(0, 0), Entry(a, 1)],
     [Entry(0, 0), Entry(b, 1), Entry(c, 2), Entry(d, 4),
      Entry(b + c, 3), Entry(b + d, 5), Entry(c + d, 6), Entry(b + c + d, 7)]]
  }

  lemma MapsOfLoneThenTriple(a: int, b: int, c: int, d: int)
    requires LoneThenTripleShape(a, b, c, d)
    ensures DigitMaps([[a], [b, c, d]]) == LoneThenTripleMaps(a, b, c, d)
  {
    DigitMapsOfTwo([[a], [b, c, d]]);
    DigitMapOfSingleton(a);
    DigitMapOfTriple(b, c, d);
  }

  /** The rows of the two digit maps that indices 0 to 4 select. */
  lemma LoneThenTripleRows(maps: seq<seq<Entry>>, a: int, b: int, c: int, d: int)
    requires maps == LoneThenTripleMaps(a, b, c, d)
    ensures MapsFit(maps, [2, 8])
    ensures maps[0][0].sum + maps[1][0].sum == 0
    ensures maps[0][1].sum + maps[1][0].sum == a
    ensures maps[0][0].sum + maps[1][1].sum == b
    ensures maps[0][1].sum + maps[1][1].sum == a + b
    ensures maps[0][0].sum + maps[1][2].sum == c
  {
  }

  /** Totals 0 to 4 of `[[a], [b, c, d]]`. */
  lemma LoneThenTripleTotals(a: int, b: int, c: int, d: int)
    ensures MapsFit(LoneThenTripleMaps(a, b, c, d), [2, 8])
    ensures TotalAt(LoneThenTripleMaps(a, b, c, d), [2, 8], 0) == 0
    ensures TotalAt(LoneThenTripleMaps(a, b, c, d), [2, 8], 1) == a
    ensures TotalAt(LoneThenTripleMaps(a, b, c, d), [2, 8], 2) == b
    ensures TotalAt(LoneThenTripleMaps(a, b, c, d), [2, 8], 3) == a + b
    ensures TotalAt(LoneThenTripleMaps(a, b, c, d), [2, 8], 4) == c
  {
    var maps, r := LoneThenTripleMaps(a, b, c, d), [2, 8];
    LoneThenTripleRows(maps, a, b, c, d);
    DigitsUnderTwoEight();
    TotalOfTwoGroups(maps, r, 0, 0, 0, 0);
    TotalOfTwoGroups(maps, r, 1, 1, 0, a);
    TotalOfTwoGroups(maps, r, 2, 0, 1, b);
    TotalOfTwoGroups(maps, r, 3, 1, 1, a + b);
    TotalOfTwoGroups(maps, r, 4, 0, 2, c);
  }

  /** On `[[a], [b, c, d]]` the totals run 0, a, b, a + b and then fall to
      c at index 4, whose digits take c alone from the second group. */
  lemma LoneThenTripleFirstDrop(a: int, b: int, c: int, d: int)
    requires LoneThenTripleShape(a, b, c, d)
    ensures MapsFit(LoneThenTripleMaps(a, b, c, d), [2, 8])
    ensures IsFirstDrop(LoneThenTripleMaps(a, b, c, d), [2, 8], Diagnostic(4, [0, 2], c, a + b))
  {
    var maps, r := LoneThenTripleMaps(a, b, c, d), [2, 8];
    LoneThenTripleTotals(a, b, c, d);
    NonDecreasingStep(maps, r, 0);
    NonDecreasingStep(maps, r, 1);
    NonDecreasingStep(maps, r, 2);
    NonDecreasingStep(maps, r, 3);
    ProductOfTwo(2, 8);
    DigitsUnderTwoEight();
  }

  /** `[3, 5, 6, 7]`, and every input of the same shape, is split into
      `[[a], [b, c, d]]` and rejected at index 4: the totals fall from
      a + b to c. */
  method RunLoneThenTriple(nums: seq<int>, a: int, b: int, c: int, d: int) returns (enc: Encoding, v: Verdict)
    requires LoneThenTripleShape(a, b, c, d)
    requires multiset(nums) == multiset([a, b, c, d])
    ensures enc == Encoding([[a], [b, c, d]], [2, 8])
    ensures v == Invalid(Diagnostic(4, [0, 2], c, a + b))
  {
    PartitionOfLoneThenTriple(nums, a, b, c, d);
    enc := SubsetSumOrdering(nums);
    LoneThenTripleFirstDrop(a, b, c, d);
    MapsOfLoneThenTriple(a, b, c, d);
    v := Verify(enc.partition, enc.radices);
    VerdictIsTheDrop(LoneThenTripleMaps(a, b, c, d), [2, 8], Diagnostic(4, [0, 2], c, a + b), v);
  }

  /** A sorted input on which the split rule never fires, such as
      `[1, 1, 2, 4]` or `[10]`, is a single group, and the verifier accepts
      it. */
  method RunUnsplittable(nums: seq<int>) returns (enc: Encoding, v: Verdict)
    requires SortedAsc(nums) && |nums| > 0
    requires forall j :: 1 <= j < |nums| ==> !StartsGroup(nums, j)
    ensures enc.partition == [nums]
    ensures |enc.radices| == 1 && enc.radices[0] == Pow2(|nums|)
    ensures v == Valid
  {
    NoSplitGivesOneGroup(nums);
    enc := SubsetSumOrdering(nums);
    v := Verify(enc.partition, enc.radices);
  }
}
