/** Selecting a subset of a group by a bitmask: bit i of the mask says
    whether position i of the group is included. */
module SubsetSums {
  import opened Seqs
  import Arith

  /** Bit i of `mask`, Python's `mask >> i & 1`. */
  function Bit(mask: nat, i: nat): nat
  {
    (mask / Pow2(i)) % 2
  }

  /** Sum of `g[i]` over the positions i < n whose bit is set in `mask`. */
  function BitSum(g: seq<int>, mask: nat, n: nat): int
    requires n <= |g|
  {
    if n == 0 then 0
    else BitSum(g, mask, n - 1) + (if Bit(mask, n - 1) == 1 then g[n - 1] else 0)
  }

  /** The sum of the sub-multiset of `g` that `mask` selects. */
  function SubsetSum(g: seq<int>, mask: nat): int
  {
    BitSum(g, mask, |g|)
  }

  /** The empty mask selects nothing. */
  lemma EmptyMaskSumsToZero(g: seq<int>)
    ensures SubsetSum(g, 0) == 0
  {
    forall n | 0 <= n <= |g|
      ensures BitSum(g, 0, n) == 0
    {
      EmptyMaskPrefix(g, n);
    }
  }

  lemma {:induction false} EmptyMaskPrefix(g: seq<int>, n: nat)
    requires n <= |g|
    ensures BitSum(g, 0, n) == 0
    decreases n
  {
    if n > 0 {
      EmptyMaskPrefix(g, n - 1);
      Arith.SmallDiv(0, Pow2(n - 1));
    }
  }

  /** Over non-negative values a selection lies between nothing and
      everything. */
  lemma {:induction false} BitSumBounds(g: seq<int>, mask: nat, n: nat)
    requires n <= |g|
    requires AllNonNegative(g)
    ensures 0 <= BitSum(g, mask, n) <= Sum(g[..n])
    decreases n
  {
    if n > 0 {
      BitSumBounds(g, mask, n - 1);
      assert g[..n][..n - 1] == g[..n - 1];
    }
  }

  lemma SubsetSumBounds(g: seq<int>, mask: nat)
    requires AllNonNegative(g)
    ensures 0 <= SubsetSum(g, mask) <= Sum(g)
  {
    BitSumBounds(g, mask, |g|);
    assert g[..|g|] == g;
  }

  /** A mask in [1, 2^n) has one of its low n bits set. */
  lemma {:induction false} NonEmptyMaskHasSetBit(mask: nat, n: nat) returns (i: nat)
    requires 1 <= mask < Pow2(n)
    ensures i < n && Bit(mask, i) == 1
    decreases n
  {
    assert n > 0;
    var k: nat := n - 1;
    var p := Pow2(k);
    if Bit(mask, k) == 1 {
      i := k;
    } else {
      assert (mask / p) % 2 == 0;
      Arith.EvenQuotientBelowTwice(mask, p);
      i := NonEmptyMaskHasSetBit(mask, k);
    }
  }

  /** A selection that includes position i, over non-negative values, is at
      least `g[i]`. */
  lemma {:induction false} BitSumIncludes(g: seq<int>, mask: nat, n: nat, i: nat)
    requires n <= |g| && i < n
    requires AllNonNegative(g)
    requires Bit(mask, i) == 1
    ensures BitSum(g, mask, n) >= g[i]
    decreases n
  {
    if i == n - 1 {
      BitSumBounds(g, mask, n - 1);
    } else {
      BitSumIncludes(g, mask, n - 1, i);
    }
  }

  /** Over non-negative values, a non-empty selection reaches the least
      value any of its members can have. */
  lemma NonEmptySelectionReaches(g: seq<int>, mask: nat, lo: int)
    requires AllNonNegative(g)
    requires forall i :: 0 <= i < |g| ==> g[i] >= lo
    requires 1 <= mask < Pow2(|g|)
    ensures SubsetSum(g, mask) >= lo
  {
    var i := NonEmptyMaskHasSetBit(mask, |g|);
    BitSumIncludes(g, mask, |g|, i);
  }
}
