/** The digit mapper (`build_digit_map`): for one group, every inclusion
    subset as a pair (sum, mask), ranked by sum with ties broken by mask.
    Digit d of the group's position in the mixed-radix scheme means "the
    subset in row d". */
module DigitMap {
  import opened Seqs
  import opened SubsetSums
  import Sorting

  /** One row of a digit map: the sum a subset contributes and its mask. */
  datatype Entry = Entry(sum: int, mask: nat)

  /** Lexicographic order on (sum, mask), Python's tuple order. */
  predicate EntryLe(a: Entry, b: Entry)
  {
    a.sum < b.sum || (a.sum == b.sum && a.mask <= b.mask)
  }

  predicate EntryLt(a: Entry, b: Entry)
  {
    a.sum < b.sum || (a.sum == b.sum && a.mask < b.mask)
  }

  lemma EntryLeIsTotalOrder()
    ensures Sorting.IsTotalOrder(EntryLe)
  {
  }

  /** The unranked table: one row per mask in [0, 2^n), in mask order. */
  function Entries(g: seq<int>): seq<Entry>
  {
    seq(Pow2(|g|), m requires 0 <= m < Pow2(|g|) => Entry(SubsetSum(g, m), m))
  }

  predicate StrictlyAscending(t: seq<Entry>)
  {
    forall d, e :: 0 <= d < e < |t| ==> EntryLt(t[d], t[e])
  }

  /** The digit map of a group of n values: the 2^n rows of the table,
      rearranged into strictly ascending (sum, mask) order, each row the sum
      and mask of one subset. */
  function BuildDigitMap(g: seq<int>): (r: seq<Entry>)
    ensures |r| == Pow2(|g|)
    ensures multiset(r) == multiset(Entries(g))
    ensures StrictlyAscending(r)
    ensures forall d :: 0 <= d < |r| ==> r[d].mask < Pow2(|g|) && r[d].sum == SubsetSum(g, r[d].mask)
  {
    var table := Entries(g);
    var r := (EntryLeIsTotalOrder(); Sorting.Sort(table, EntryLe));
    RankedRowsAreTableRows(g, table, r);
    RankedTableIsStrict(g, table, r);
    r
  }

  /** A rearrangement of the table has its length, and each of its rows is
      the sum and mask of one subset. */
  lemma RankedRowsAreTableRows(g: seq<int>, table: seq<Entry>, r: seq<Entry>)
    requires table == Entries(g)
    requires multiset(r) == multiset(table)
    ensures |r| == Pow2(|g|)
    ensures forall d :: 0 <= d < |r| ==> r[d].mask < Pow2(|g|) && r[d].sum == SubsetSum(g, r[d].mask)
  {
    assert |r| == |multiset(r)| == |multiset(table)| == |table|;
    forall d | 0 <= d < |r|
      ensures r[d].mask < Pow2(|g|) && r[d].sum == SubsetSum(g, r[d].mask)
    {
      assert r[d] in multiset(table);
      var m :| 0 <= m < |table| && table[m] == r[d];
    }
  }

  /** A sorted rearrangement of the table is strictly ascending, because no
      two rows of the table share a mask. */
  lemma RankedTableIsStrict(g: seq<int>, table: seq<Entry>, r: seq<Entry>)
    requires table == Entries(g)
    requires multiset(r) == multiset(table)
    requires Sorting.SortedBy(r, EntryLe)
    ensures StrictlyAscending(r)
  {
    assert Sorting.Distinct(table) by {
      assert forall m :: 0 <= m < |table| ==> table[m].mask == m;
    }
    Sorting.DistinctPermutation(table, r);
    assert forall d, e :: 0 <= d < e < |r| ==> EntryLe(r[d], r[e]) && r[d] != r[e];
  }

  /** Every mask below 2^n labels exactly one row of the digit map, and that
      row carries the mask's subset sum. */
  lemma EveryMaskHasOneRow(g: seq<int>, m: nat)
    requires m < Pow2(|g|)
    ensures exists d :: 0 <= d < |BuildDigitMap(g)| && BuildDigitMap(g)[d] == Entry(SubsetSum(g, m), m)
    ensures forall d, e ::
              (0 <= d < |BuildDigitMap(g)| && 0 <= e < |BuildDigitMap(g)|
               && BuildDigitMap(g)[d].mask == m && BuildDigitMap(g)[e].mask == m) ==> d == e
  {
    var r := BuildDigitMap(g);
    var table := Entries(g);
    assert table[m] in multiset(r);
    forall d, e | 0 <= d < |r| && 0 <= e < |r| && r[d].mask == m && r[e].mask == m
      ensures d == e
    {
      assert !EntryLt(r[d], r[e]) && !EntryLt(r[e], r[d]);
    }
  }

  /** Any strictly ascending arrangement of the table is the digit map: the
      ranking is fully determined because no two rows tie. */
  lemma DigitMapIsTheRankedTable(g: seq<int>, t: seq<Entry>)
    requires StrictlyAscending(t)
    requires multiset(t) == multiset(Entries(g))
    ensures BuildDigitMap(g) == t
  {
    EntryLeIsTotalOrder();
    var r := BuildDigitMap(g);
    assert multiset(r) == multiset(Entries(g));
    assert Sorting.SortedBy(r, EntryLe);
    assert Sorting.SortedBy(t, EntryLe);
    Sorting.SortedPermutationUnique(r, t, EntryLe);
  }

  /** Over non-negative values, digit 0 is the empty subset (0, 0) and the
      sums never decrease along the digits. */
  lemma DigitZeroIsEmptySubset(g: seq<int>)
    requires AllNonNegative(g)
    ensures BuildDigitMap(g)[0] == Entry(0, 0)
    ensures forall d, e :: 0 <= d <= e < |BuildDigitMap(g)| ==> BuildDigitMap(g)[d].sum <= BuildDigitMap(g)[e].sum
  {
    var r := BuildDigitMap(g);
    EmptyMaskSumsToZero(g);
    EveryMaskHasOneRow(g, 0);
    var d :| 0 <= d < |r| && r[d] == Entry(0, 0);
    SubsetSumBounds(g, r[0].mask);
    assert !EntryLt(r[0], r[d]);
  }
}
