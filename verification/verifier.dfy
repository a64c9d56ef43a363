/** The verifier (`verify`): walk every mixed-radix digit tuple in
    enumeration order (group 0 fastest, the last group slowest), total the
    subset sums the digits select through each group's digit map, and report
    the first index at which the total strictly decreases. */
module Verifier {
  import opened Seqs
  import opened DigitMap
  import opened MixedRadix
  import Arith

  datatype Option<T> = None | Some(value: T)

  /** Where the order breaks: the index, its digits, its total and the total
      at the index before it. */
  datatype Diagnostic = Diagnostic(atIndex: nat, digits: seq<nat>, sum: int, prevSum: int)

  /** `(True, None)` or `(False, diagnostic)`. */
  datatype Verdict = Valid | Invalid(diagnostic: Diagnostic)

  /** Each radix is 2 to the size of its group, as the partitioner makes
      them; otherwise a digit could index past the end of a digit map. */
  predicate Consistent(partition: seq<seq<int>>, radices: seq<nat>)
  {
    && |radices| == |partition|
    && forall j :: 0 <= j < |partition| ==> radices[j] == Pow2(|partition[j]|)
  }

  /** The digit map of every group, built once before the enumeration. */
  function DigitMaps(partition: seq<seq<int>>): seq<seq<Entry>>
  {
    seq(|partition|, g requires 0 <= g < |partition| => BuildDigitMap(partition[g]))
  }

  /** Every radix is positive and is the number of rows of its group's
      digit map, so any digits below the radices select a row of each. */
  predicate MapsFit(maps: seq<seq<Entry>>, radices: seq<nat>)
  {
    && |maps| == |radices|
    && forall g :: 0 <= g < |maps| ==> 0 < radices[g] == |maps[g]|
  }

  /** The digit maps of a partition fit radices consistent with it. */
  lemma DigitMapsFit(partition: seq<seq<int>>, radices: seq<nat>)
    requires Consistent(partition, radices)
    ensures MapsFit(DigitMaps(partition), radices)
  {
    var maps := DigitMaps(partition);
    forall g | 0 <= g < |maps|
      ensures 0 < radices[g] == |maps[g]|
    {
      assert maps[g] == BuildDigitMap(partition[g]);
    }
  }

  /** The sum of the subsets that `digits` select, one row per group. */
  function Total(maps: seq<seq<Entry>>, digits: seq<nat>): int
    requires |digits| == |maps|
    requires forall g :: 0 <= g < |maps| ==> digits[g] < |maps[g]|
    decreases |maps|
  {
    if |maps| == 0 then 0
    else maps[0][digits[0]].sum + Total(maps[1..], digits[1..])
  }

  /** The total visited at enumeration index `i`. */
  function TotalAt(maps: seq<seq<Entry>>, radices: seq<nat>, i: nat): int
    requires MapsFit(maps, radices)
  {
    Total(maps, DigitsOf(i, radices))
  }

  /** The total at index `i` is at least the total at the index before. */
  predicate RisesAt(maps: seq<seq<Entry>>, radices: seq<nat>, i: nat)
    requires MapsFit(maps, radices)
    requires i >= 1
  {
    TotalAt(maps, radices, i - 1) <= TotalAt(maps, radices, i)
  }

  /** The totals never decrease over the indices below `n`. */
  predicate NonDecreasingBelow(maps: seq<seq<Entry>>, radices: seq<nat>, n: nat)
    requires MapsFit(maps, radices)
  {
    forall i :: 1 <= i < n ==> RisesAt(maps, radices, i)
  }

  lemma NonDecreasingStep(maps: seq<seq<Entry>>, radices: seq<nat>, n: nat)
    requires MapsFit(maps, radices)
    requires NonDecreasingBelow(maps, radices, n)
    requires n >= 1 ==> TotalAt(maps, radices, n - 1) <= TotalAt(maps, radices, n)
    ensures NonDecreasingBelow(maps, radices, n + 1)
  {
    forall i | 1 <= i < n + 1
      ensures RisesAt(maps, radices, i)
    {
      if i < n {
        assert RisesAt(maps, radices, i);
      }
    }
  }

  /** An index at which the total drops bounds every prefix over which the
      totals never decrease. */
  lemma DropBoundsPrefix(maps: seq<seq<Entry>>, radices: seq<nat>, n: nat, i: nat)
    requires MapsFit(maps, radices)
    requires NonDecreasingBelow(maps, radices, n)
    requires i >= 1 && !RisesAt(maps, radices, i)
    ensures n <= i
  {
  }

  /** `d` describes the least index at which the total strictly decreases. */
  predicate IsFirstDrop(maps: seq<seq<Entry>>, radices: seq<nat>, d: Diagnostic)
    requires MapsFit(maps, radices)
  {
    && 1 <= d.atIndex < Product(radices)
    && NonDecreasingBelow(maps, radices, d.atIndex)
    && d.digits == DigitsOf(d.atIndex, radices)
    && d.sum == TotalAt(maps, radices, d.atIndex)
    && d.prevSum == TotalAt(maps, radices, d.atIndex - 1)
    && d.sum < d.prevSum
  }

  /** A decrease at index i after none before it is the first drop, and
      the totals are then not non-decreasing. */
  lemma {:induction false} DropIsFirst(maps: seq<seq<Entry>>, radices: seq<nat>, i: nat, total: int, prevTotal: int)
    requires MapsFit(maps, radices)
    requires 1 <= i < Product(radices)
    requires NonDecreasingBelow(maps, radices, i)
    requires total == TotalAt(maps, radices, i)
    requires prevTotal == TotalAt(maps, radices, i - 1)
    requires total < prevTotal
    ensures IsFirstDrop(maps, radices, Diagnostic(i, DigitsOf(i, radices), total, prevTotal))
    ensures !NonDecreasingBelow(maps, radices, Product(radices))
  {
    assert !RisesAt(maps, radices, i);
  }

  /** At most one diagnostic describes the first drop. */
  lemma FirstDropUnique(maps: seq<seq<Entry>>, radices: seq<nat>, d1: Diagnostic, d2: Diagnostic)
    requires MapsFit(maps, radices)
    requires IsFirstDrop(maps, radices, d1) && IsFirstDrop(maps, radices, d2)
    ensures d1 == d2
  {
    var i1, i2 := d1.atIndex, d2.atIndex;
    assert !RisesAt(maps, radices, i1);
    assert !RisesAt(maps, radices, i2);
    DropBoundsPrefix(maps, radices, i1, i2);
    DropBoundsPrefix(maps, radices, i2, i1);
  }

  /** With a single group the totals are the rows of its digit map, which
      ascend, so they never decrease. */
  lemma SingleMapNeverDrops(maps: seq<seq<Entry>>, radices: seq<nat>)
    requires MapsFit(maps, radices)
    requires |maps| == 1 && StrictlyAscending(maps[0])
    ensures NonDecreasingBelow(maps, radices, Product(radices))
  {
    var r := radices[0];
    var map0 := maps[0];
    assert Product(radices) == r by {
      assert radices[1..] == [];
    }
    forall i | 0 <= i < r
      ensures TotalAt(maps, radices, i) == map0[i].sum
    {
      Arith.DivUnique(i, r, 0, i);
      assert DigitsOf(i, radices) == [i];
      assert Total(maps[1..], [i][1..]) == 0;
    }
    forall i | 1 <= i < r
      ensures RisesAt(maps, radices, i)
    {
      assert EntryLt(map0[i - 1], map0[i]);
    }
  }

  /** One step of the enumeration: the digits at index `i`, the total they
      select through the digit maps, and whether that total is below the
      previous one. */
  method Step(maps: seq<seq<Entry>>, radices: seq<nat>, i: nat, prev: Option<int>)
    returns (drop: Option<Diagnostic>, total: int)
    requires MapsFit(maps, radices)
    requires i < Product(radices)
    requires prev.None? <==> i == 0
    requires prev.Some? ==> prev.value == TotalAt(maps, radices, i - 1)
    requires NonDecreasingBelow(maps, radices, i)
    ensures drop.Some? ==> drop.value.atIndex == i && drop.value.sum == total
    ensures drop.Some? ==> IsFirstDrop(maps, radices, drop.value)
    ensures drop.Some? ==> !NonDecreasingBelow(maps, radices, Product(radices))
    ensures drop.None? ==> total == TotalAt(maps, radices, i)
    ensures drop.None? ==> NonDecreasingBelow(maps, radices, i + 1)
  {
    var digits := DigitsOf(i, radices);
    total := Total(maps, digits);
    if prev.Some? && total < prev.value {
      DropIsFirst(maps, radices, i, total, prev.value);
      drop := Some(Diagnostic(i, digits, total, prev.value));
    } else {
      NonDecreasingStep(maps, radices, i);
      drop := None;
    }
  }

  /** The enumeration loop: it stops at the first decrease, and otherwise
      visits every index below the product of the radices. */
  method Walk(maps: seq<seq<Entry>>, radices: seq<nat>) returns (v: Verdict)
    requires MapsFit(maps, radices)
    ensures v == Valid <==> NonDecreasingBelow(maps, radices, Product(radices))
    ensures v.Invalid? ==> IsFirstDrop(maps, radices, v.diagnostic)
  {
    var n := Product(radices);
    var prev: Option<int> := None;
    var i := 0;
    while i < n
      invariant 0 <= i <= n
      invariant prev.None? <==> i == 0
      invariant prev.Some? ==> prev.value == TotalAt(maps, radices, i - 1)
      invariant NonDecreasingBelow(maps, radices, i)
    {
      var drop, total := Step(maps, radices, i, prev);
      if drop.Some? {
        return Invalid(drop.value);
      }
      prev := Some(total);
      i := i + 1;
    }
    return Valid;
  }

  /** The verifier. It builds the digit maps of the partition, passes
      exactly when the totals they give never decrease along the
      enumeration, and otherwise reports the first decrease; a partition of
      at most one group always passes. */
  method Verify(partition: seq<seq<int>>, radices: seq<nat>) returns (v: Verdict)
    requires Consistent(partition, radices)
    ensures MapsFit(DigitMaps(partition), radices)
    ensures |partition| <= 1 ==> v == Valid
    ensures v == Valid <==> NonDecreasingBelow(DigitMaps(partition), radices, Product(radices))
    ensures v.Invalid? ==> IsFirstDrop(DigitMaps(partition), radices, v.diagnostic)
  {
    var maps := DigitMaps(partition);
    DigitMapsFit(partition, radices);
    if |partition| == 0 {
      return Valid;
    }
    if |partition| == 1 {
      assert maps[0] == BuildDigitMap(partition[0]);
      SingleMapNeverDrops(maps, radices);
    }
    v := Walk(maps, radices);
  }
}
