# Subset-sum ordering, modelled in Dafny

`subset_sum_ordering.py` tries to give every subset of a list of positive
integers a mixed-radix digit tuple whose order follows the subset sums. It has
three parts. This project models them as pure Dafny functions, plus methods for
the verifier's enumeration loop.

- **The partitioner** (`subset_sum_ordering`) sorts the input and scans it with
  a running prefix sum. It opens a new group whenever the open group is
  non-empty and the prefix sum is strictly below the next element. It then
  returns the groups together with the radices `2^|g|`.
- **The digit mapper** (`build_digit_map`) lists every inclusion mask of a
  group with the sum it selects. It returns the `(sum, mask)` pairs ranked in
  ascending order.
- **The verifier** (`verify`) walks every digit tuple in enumeration order, with
  group 0 varying fastest and the last group slowest. It totals the subset sums
  that the digits select and reports the first index at which the total strictly
  decreases.

Modules:

- `Seqs`: sums, powers of two, flattening and cut positions.
- `Arith`: division facts.
- `Sorting`: a sort that stands for Python's `sorted`.
- `SubsetSums`: bit tests and masked sums.
- `DigitMap`: the digit mapper.
- `MixedRadix`: the enumeration order of `itertools.product`.
- `Partitioner`: the partitioner.
- `Verifier`: the verifier.
- `Scenarios`: concrete inputs worked end to end.

The docstring of `subset_sum_ordering` (lines 13-17) claims that this encoding
orders all subsets consistently with their sums. The code does not deliver
that, and the model proves the opposite on concrete shapes:

- `[1, 2, 2]` is split into `[[1], [2, 2]]`. The verifier rejects it at index 4,
  with digits `[0, 2]`, sum 2 and previous sum 3 (`Scenarios.RunRepeatAfterSmaller`).
- The file's own example `[1, 20, 5, 6, 2]` is split into `[[1], [2], [5, 6], [20]]`,
  with radices `[2, 2, 4, 2]`. The verifier rejects it at index 8, with digits
  `[0, 0, 2, 0]`, sum 6 and previous sum 8 (`Scenarios.RunMotivating`).
- `[3, 5, 6, 7]` is split into `[[3], [5, 6, 7]]`, because 3 < 5 fires the split
  rule. The driver's comment says that no element dominates its prefix. The
  verifier rejects the input at index 4 (`Scenarios.RunLoneThenTriple`).
- `[1, 1, 2, 4]` and `[10]` stay a single group, because the split rule fires
  nowhere. The verifier accepts them (`Scenarios.RunUnsplittable`).
- `[1, 2, 4, 8, 16]` gives singletons (`Partitioner.SuperIncreasingGivesSingletons`).

Where the docstring (lines 13-17) or the driver's comment (line 105) disagrees
with the code, the model follows the code.

The model proves what the code does promise:

- the split rule as a biconditional;
- the partition characterised uniquely by that rule;
- the cross-group dominance of lines 21-23;
- the digit maps as ranked tables;
- the index-to-digits correspondence of the enumeration;
- the exact first-violation contract of `verify`.

## Model

| member | source | states |
|---|---|---|
| Partitioner.SubsetSumOrdering | subset_sum_ordering.py:4-44 | An empty input gives an empty partition and empty radices. A non-empty input gives non-empty groups. The concatenated groups are the input's elements in ascending order, and each group is ascending. The group boundaries are exactly the positions where the split rule fires. Every later group starts above the total of the earlier groups. There is one radix per group, equal to 2 to the group's size. |
| Partitioner.StartsGroup | subset_sum_ordering.py:36 | The split rule at a sorted position j >= 1: everything before j sums to strictly less than the element at j. |
| Partitioner.CutsFollowSplitRule | subset_sum_ordering.py:36-38 | A group starts at a position of the sorted input exactly when the split rule fires there. |
| Partitioner.EarlierGroupsBelow | subset_sum_ordering.py:21-23 | The first element of every later group is strictly above the total of all groups before it. |
| Partitioner.Radices | subset_sum_ordering.py:11 | One radix per group, and each is the digit alphabet size at that position: the number of rows of the group's digit map. |
| Partitioner.SortAsc | subset_sum_ordering.py:30 | The result is ascending and holds the same multiset of elements as the input. |
| Partitioner.Scan | subset_sum_ordering.py:35-42 | The loop's result concatenates to the elements already read followed by the unread rest. Its groups are non-empty, are cut exactly where the split rule fires, and each starts above everything before it. |
| Partitioner.CutsAfterAppend | subset_sum_ordering.py:36-39 | Reading one more element adds a boundary before it exactly when the open group is non-empty and the prefix sum is below the element. |
| Partitioner.CloseStep | subset_sum_ordering.py:36-40 | Closing the open group and opening one with the new element preserves the loop invariant: prefix sum, non-empty closed groups, split-rule boundaries and dominance. |
| Partitioner.ExtendStep | subset_sum_ordering.py:36-40 | Appending the element to the open group when the rule does not fire preserves the same loop invariant. |
| Partitioner.PartitionCharacterization | subset_sum_ordering.py:27-42 | For a non-empty input, a candidate is the returned partition if and only if four conditions hold: its groups are non-empty, it is ascending, it is a permutation of the input, and its boundaries are exactly the split-rule positions. |
| Partitioner.SplitRuleDeterminesPartition | subset_sum_ordering.py:35-42 | Two partitions of the same sequence whose boundaries both follow the split rule are equal. |
| Partitioner.PartitionDeterminedByCuts | subset_sum_ordering.py:35-42 | A partition into non-empty groups is determined by its concatenation together with its boundary positions. |
| Partitioner.OrderingIgnoresInputOrder | subset_sum_ordering.py:30 | Inputs holding the same multiset of values give the same partition and radices. |
| Partitioner.PartitionIsPositive | subset_sum_ordering.py:30-42 | On positive inputs every element of the partition is positive. |
| Partitioner.EqualNeighboursNeverCut | subset_sum_ordering.py:36 | Over positive values, the split rule never fires between two equal neighbours. |
| Partitioner.EqualNeighboursShareAGroup | subset_sum_ordering.py:36 | On positive inputs, two equal neighbours of the sorted input are never separated by a group boundary. |
| Partitioner.AllCutsMeansSingletons | subset_sum_ordering.py:35-42 | A partition into non-empty groups that has a boundary at every position is the list of one-element groups. |
| Partitioner.SuperIncreasingGivesSingletons | subset_sum_ordering.py:24-25 | A sorted input in which each element exceeds the sum of those before it yields one group per element, each with radix 2. |
| Partitioner.EarlierGroupsNeverReach | subset_sum_ordering.py:21-23 | On positive inputs, no sub-multiset of the groups before group i sums to as much as any non-empty selection from group i. |
| Partitioner.SelectionsBelowGroup | subset_sum_ordering.py:21-23 | For any positive partition whose groups each start above everything before them, every selection from the groups before an ascending group i sums to less than every non-empty selection from group i. |
| Partitioner.NoSplitGivesOneGroup | subset_sum_ordering.py:35-43 | When the split rule fires nowhere on a sorted non-empty input, the partition is the whole input as one group, with radix 2 to its length. |
| Partitioner.OneGroupMeansNoSplit | subset_sum_ordering.py:35-42 | Conversely, a one-group answer on a sorted input means the rule fired nowhere. |
| Sorting.Sort | subset_sum_ordering.py:57-60 | The result is sorted under the given total order and is a permutation of the input. |
| Sorting.SortedPermutationUnique | subset_sum_ordering.py:57-60 | Two sorted permutations of each other under an antisymmetric total order are equal, so the ranking is fully determined. |
| Sorting.DistinctPermutation | subset_sum_ordering.py:57-60 | A permutation of a sequence without repeats has no repeats. |
| SubsetSums.Bit | subset_sum_ordering.py:58 | Bit i of a mask, 0 or 1, as `mask >> i & 1` computes it for a non-negative mask. |
| SubsetSums.SubsetSum | subset_sum_ordering.py:58 | The sum of the group elements whose position's bit is set in the mask. |
| SubsetSums.EmptyMaskSumsToZero | subset_sum_ordering.py:58 | Mask 0 selects nothing and sums to 0. |
| SubsetSums.SubsetSumBounds | subset_sum_ordering.py:58 | Over non-negative values a masked sum lies between 0 and the sum of the whole group. |
| SubsetSums.NonEmptyMaskHasSetBit | subset_sum_ordering.py:58 | A mask between 1 and 2^n - 1 has a set bit below n. |
| SubsetSums.NonEmptySelectionReaches | subset_sum_ordering.py:58 | Over non-negative values bounded below by lo, any non-empty selection sums to at least lo. |
| DigitMap.EntryLe | subset_sum_ordering.py:57-60 | The order in which Python sorts (sum, mask) pairs: by sum, with ties broken by mask. |
| DigitMap.Entries | subset_sum_ordering.py:57-59 | The unranked table: for every mask below 2^n, one row holding the mask and the sum it selects, in mask order. |
| DigitMap.BuildDigitMap | subset_sum_ordering.py:47-60 | The digit map has 2^n rows. It is a permutation of the unranked (sum, mask) table and is strictly ascending by (sum, mask). Every row's mask is below 2^n and its sum is that mask's subset sum. |
| DigitMap.EveryMaskHasOneRow | subset_sum_ordering.py:57-60 | Each mask below 2^n labels exactly one row, and that row carries the mask's subset sum. |
| DigitMap.DigitMapIsTheRankedTable | subset_sum_ordering.py:57-60 | Any strictly ascending rearrangement of the table is the digit map. |
| DigitMap.DigitZeroIsEmptySubset | subset_sum_ordering.py:52-53 | Over non-negative values, row 0 is (0, 0) and the sums never decrease along the rows. |
| MixedRadix.Product | subset_sum_ordering.py:83-85 | The number of digit tuples the enumeration visits: the product of the radices. |
| MixedRadix.DigitsOf | subset_sum_ordering.py:83-86 | Decoding an index gives one digit per group, each below its radix. |
| MixedRadix.IndexOf | subset_sum_ordering.py:83-86 | Encoding a valid digit tuple gives an index below the product of the radices. |
| MixedRadix.IndexOfDigitsOf | subset_sum_ordering.py:83-86 | Decoding and then encoding any index below the product gives the index back. |
| MixedRadix.DigitsOfIndexOf | subset_sum_ordering.py:83-86 | Encoding and then decoding any valid digit tuple gives the tuple back. |
| MixedRadix.EveryTupleVisitedOnce | subset_sum_ordering.py:83-86 | Every valid digit tuple is visited at exactly one index below the product. |
| MixedRadix.DigitClosedForm | subset_sum_ordering.py:80-86 | Digit g of index i is (i / product of radices 0..g-1) % radices[g], so group 0 varies fastest. |
| MixedRadix.IndexOrderIsReverseLex | subset_sum_ordering.py:80-86 | Index order is the lexicographic order of the digit tuples read from the last group down. |
| MixedRadix.EnumerationOrder | subset_sum_ordering.py:80-86 | Visiting indices in increasing order visits tuples in increasing order, with the last group most significant. |
| MixedRadix.ProductPositive | subset_sum_ordering.py:83-84 | Positive radices have a positive product, so there is at least one tuple. |
| Verifier.DigitMaps | subset_sum_ordering.py:78 | The digit map of each group, in group order. |
| Verifier.Total | subset_sum_ordering.py:87 | For each group, take the sum column of the row its digit selects, and add these over all groups. |
| Verifier.TotalAt | subset_sum_ordering.py:83-87 | The total for the digit tuple visited at enumeration index i. |
| Verifier.NonDecreasingBelow | subset_sum_ordering.py:89-96 | No index below n, from 1 up, has a total strictly below the total at the index before it. |
| Verifier.IsFirstDrop | subset_sum_ordering.py:89-95 | A diagnostic for the least index i >= 1 below the product whose total is below the previous one. It holds i, i's digits, i's total and the previous total. |
| Verifier.Verify | subset_sum_ordering.py:63-98 | The verifier returns Valid for zero groups and for one group. Otherwise it returns Valid exactly when the totals never decrease along the enumeration. On Invalid, the diagnostic is the first drop: its index is the least i >= 1 with total(i) < total(i-1), together with that index's digits, total(i) and total(i-1). |
| Verifier.Walk | subset_sum_ordering.py:82-98 | The enumeration loop returns Valid if and only if the totals never decrease below the product of the radices. Otherwise it returns the first drop. |
| Verifier.Step | subset_sum_ordering.py:86-96 | One step reports a drop only when it is the first one, and the totals are then not non-decreasing. Otherwise it returns the total at i and extends the non-decreasing prefix by one. |
| Verifier.DigitMapsFit | subset_sum_ordering.py:78 | With consistent radices, every radix is positive and every group's digit map has exactly as many rows as its radix: one per subset of the group, the values a digit of that group ranges over. |
| Verifier.NonDecreasingStep | subset_sum_ordering.py:89-96 | A non-decreasing prefix extends by one index when the next total is no smaller. |
| Verifier.DropIsFirst | subset_sum_ordering.py:89-95 | A decrease at i after none before it is the first drop, and the diagnostic at i describes it. |
| Verifier.FirstDropUnique | subset_sum_ordering.py:89-95 | At most one diagnostic describes the first drop. |
| Verifier.SingleMapNeverDrops | subset_sum_ordering.py:74-98 | With one group the totals are the rows of its ascending digit map, so they never decrease. |
| Scenarios.DigitMapOfSingleton | subset_sum_ordering.py:57-60 | The digit map of `[x]` with x >= 0 is `[(0, 0), (x, 1)]`. |
| Scenarios.DigitMapOfPair | subset_sum_ordering.py:57-60 | The digit map of `[a, b]` with 0 <= a <= b is `[(0, 0), (a, 1), (b, 2), (a + b, 3)]`. |
| Scenarios.DigitMapOfTriple | subset_sum_ordering.py:57-60 | The digit map of `[b, c, d]` with 0 < b < c < d < b + c puts d alone (mask 4) before b + c (mask 3). |
| Scenarios.PartitionOfRepeatAfterSmaller | subset_sum_ordering.py:27-44 | Any arrangement of a, b, b with 0 < a < b is split into `[[a], [b, b]]` with radices `[2, 4]`. |
| Scenarios.RepeatAfterSmallerFirstDrop | subset_sum_ordering.py:80-95 | On those maps the totals run 0, a, b, a + b and then fall to b at index 4, with digits `[0, 2]`. |
| Scenarios.VerdictIsTheDrop | subset_sum_ordering.py:89-95 | When d is the first drop, the verifier's contract leaves no verdict but Invalid(d). |
| Scenarios.RunRepeatAfterSmaller | subset_sum_ordering.py:4-98 | For `[1, 2, 2]` and every input of that shape, the verifier rejects the partition at index 4, with sum b and previous sum a + b. |
| Scenarios.PartitionOfMotivating | subset_sum_ordering.py:27-44 | Inputs shaped like `[1, 20, 5, 6, 2]` are split into `[[a], [b], [c, d], [e]]` with radices `[2, 2, 4, 2]`. |
| Scenarios.MotivatingFirstDrop | subset_sum_ordering.py:80-95 | Their totals climb through the subsets of {a, b, c} and first fall at index 8, with digits `[0, 0, 2, 0]`, sum d and previous sum a + b + c. |
| Scenarios.RunMotivating | subset_sum_ordering.py:4-98 | The program's own example is rejected by the verifier at index 8. |
| Scenarios.PartitionOfLoneThenTriple | subset_sum_ordering.py:27-44 | Inputs shaped like `[3, 5, 6, 7]` are split into `[[a], [b, c, d]]` with radices `[2, 8]`. |
| Scenarios.LoneThenTripleFirstDrop | subset_sum_ordering.py:80-95 | Their totals run 0, a, b, a + b and first fall to c at index 4, with digits `[0, 2]`. |
| Scenarios.RunLoneThenTriple | subset_sum_ordering.py:4-98 | `[3, 5, 6, 7]` and every input of that shape is rejected by the verifier at index 4. |
| Scenarios.RunUnsplittable | subset_sum_ordering.py:4-98 | A sorted input on which the split rule never fires, such as `[1, 1, 2, 4]` or `[10]`, is one group with radix 2^n, and the verifier accepts it. |

## Left out

- The `__main__` driver (lines 101-121) only prints fixed examples, so it is not modelled. Its inputs are worked through in `Scenarios`, with two exceptions. `[1, 2, 3, 4]` is not modelled. For `[1, 2, 4, 8, 16]` only the partition is proved, by `Partitioner.SuperIncreasingGivesSingletons`; the verifier's verdict on it is not.
- `itertools.product` is not modelled as an iterator object. The enumeration at lines 83-86 is modelled as little-endian mixed-radix decoding of the enumeration index. `MixedRadix.EnumerationOrder` proves this is the product's order with the last group most significant.
- Python's `sorted` (lines 30 and 57) is stood for by an insertion sort (`Sorting.Sort`). Its contract is sortedness and multiset preservation, and sorted permutations are unique, so any correct sort gives the same result.
- Verifier.Verify: requires radices consistent with the partition: one radix per group, with `radices[j] == 2^|partition[j]|`. The source accepts more than this, and the model does not cover the cases below.
  - With no groups it returns `(True, None)` whatever the radices are (lines 74-76).
  - Extra trailing radices are ignored, because line 84 reads only `radices[0..k-1]`.
  - A radix below `2^|g|` makes the enumeration check only the first rows of that group's digit map, without any error; a radix of 0 or below empties the enumeration, so the result passes.
  - A radix above `2^|g|` raises `IndexError` at line 87 unless a drop is found first; for group 0 it always raises when every other radix is positive, because its rows are visited first and in ascending order. A zero or negative radix elsewhere empties the enumeration, and the result passes.
  - Fewer radices than groups raise `IndexError` at line 84.
- Partitioner.EqualNeighboursShareAGroup: proved for positive inputs only, as the docstring assumes (line 6). The partitioner itself is modelled on all integers.
- Partitioner.EarlierGroupsNeverReach: proved for positive inputs only, because with negative values the dominance claim of lines 21-23 need not hold.
- The diagnostic dictionary (lines 90-95) is a `Diagnostic` datatype. The digit tuple is a sequence of naturals in group order, as after the reversal at line 86.
- Python's integers are unbounded, so `int` and `nat` need no wrap-around.
- The docstring's claim at lines 13-17, that the encoding is always consistent with subset-sum order, is false. It is refuted by the scenarios above, not proved.
