/** Mixed-radix digit tuples and the order in which the verifier visits
    them. Python enumerates the Cartesian product of the digit ranges with
    the last group's digit first and reverses each tuple; that is the same as
    decoding each enumeration index little-endian, digit 0 varying fastest
    and the last digit slowest. */
module MixedRadix {
  import Arith

  /** The number of digit tuples: the product of the radices. */
  function Product(radices: seq<nat>): nat
  {
    if |radices| == 0 then 1 else radices[0] * Product(radices[1..])
  }

  predicate PositiveRadices(radices: seq<nat>)
  {
    forall j :: 0 <= j < |radices| ==> radices[j] > 0
  }

  /** One digit per position, each below its radix. */
  predicate ValidDigits(digits: seq<nat>, radices: seq<nat>)
  {
    && |digits| == |radices|
    && forall g :: 0 <= g < |radices| ==> digits[g] < radices[g]
  }

  lemma {:induction false} ProductPositive(radices: seq<nat>)
    requires PositiveRadices(radices)
    ensures Product(radices) > 0
    decreases |radices|
  {
    if |radices| > 0 {
      ProductPositive(radices[1..]);
      Arith.MulMono(radices[0], 1, Product(radices[1..]));
    }
  }

  /** The digits visited at enumeration index `i`, little-endian. */
  function DigitsOf(i: nat, radices: seq<nat>): (digits: seq<nat>)
    requires PositiveRadices(radices)
    ensures ValidDigits(digits, radices)
    decreases |radices|
  {
    if |radices| == 0 then []
    else [i % radices[0]] + DigitsOf(i / radices[0], radices[1..])
  }

  /** The enumeration index at which `digits` is visited. */
  function IndexOf(digits: seq<nat>, radices: seq<nat>): (i: nat)
    requires ValidDigits(digits, radices)
    ensures i < Product(radices)
    decreases |radices|
  {
    if |radices| == 0 then 0
    else
      var rest := IndexOf(digits[1..], radices[1..]);
      Arith.PlaceValueBelow(digits[0], radices[0], rest, Product(radices[1..]));
      digits[0] + radices[0] * rest
  }

  /** Decoding an index and encoding the digits again gives the index back. */
  lemma {:induction false} IndexOfDigitsOf(i: nat, radices: seq<nat>)
    requires PositiveRadices(radices)
    requires i < Product(radices)
    ensures IndexOf(DigitsOf(i, radices), radices) == i
    decreases |radices|
  {
    if |radices| > 0 {
      var r := radices[0];
      Arith.DivBelow(i, r, Product(radices[1..]));
      IndexOfDigitsOf(i / r, radices[1..]);
      assert DigitsOf(i, radices)[1..] == DigitsOf(i / r, radices[1..]);
      Arith.DivMod(i, r);
    }
  }

  /** Encoding a digit tuple and decoding the index gives the tuple back. */
  lemma {:induction false} DigitsOfIndexOf(digits: seq<nat>, radices: seq<nat>)
    requires PositiveRadices(radices)
    requires ValidDigits(digits, radices)
    ensures DigitsOf(IndexOf(digits, radices), radices) == digits
    decreases |radices|
  {
    if |radices| > 0 {
      var rest := IndexOf(digits[1..], radices[1..]);
      Arith.DivUnique(digits[0] + radices[0] * rest, radices[0], rest, digits[0]);
      DigitsOfIndexOf(digits[1..], radices[1..]);
      assert digits == [digits[0]] + digits[1..];
    }
  }

  /** Every valid digit tuple is visited at exactly one index below the
      product of the radices. */
  lemma EveryTupleVisitedOnce(digits: seq<nat>, radices: seq<nat>)
    requires PositiveRadices(radices)
    requires ValidDigits(digits, radices)
    ensures IndexOf(digits, radices) < Product(radices)
    ensures DigitsOf(IndexOf(digits, radices), radices) == digits
    ensures forall i :: 0 <= i < Product(radices) && DigitsOf(i, radices) == digits ==> i == IndexOf(digits, radices)
  {
    DigitsOfIndexOf(digits, radices);
    forall i | 0 <= i < Product(radices) && DigitsOf(i, radices) == digits
      ensures i == IndexOf(digits, radices)
    {
      IndexOfDigitsOf(i, radices);
    }
  }

  /** Digit g of index i is (i / (radices[0] * ... * radices[g-1])) % radices[g]. */
  lemma {:induction false} DigitClosedForm(i: nat, radices: seq<nat>, g: nat)
    requires PositiveRadices(radices)
    requires g < |radices|
    ensures Product(radices[..g]) > 0
    ensures DigitsOf(i, radices)[g] == (i / Product(radices[..g])) % radices[g]
    decreases g
  {
    ProductPositive(radices[..g]);
    if g > 0 {
      var r := radices[0];
      var tail := radices[1..];
      DigitClosedForm(i / r, tail, g - 1);
      assert radices[..g][1..] == tail[..g - 1];
      assert Product(radices[..g]) == r * Product(tail[..g - 1]);
      Arith.DivDiv(i, r, Product(tail[..g - 1]));
    } else {
      assert radices[..0] == [];
    }
  }

  /** `a` comes before `b` when the tuples are compared from the last
      (most significant) digit down to digit 0. */
  predicate ReverseLexLess(a: seq<nat>, b: seq<nat>)
    requires |a| == |b|
    decreases |a|
  {
    |a| > 0 && (ReverseLexLess(a[1..], b[1..]) || (a[1..] == b[1..] && a[0] < b[0]))
  }

  /** Index order is reverse-lexicographic order on digit tuples: the
      enumeration is Python's lexicographic product over the reversed
      radices. */
  lemma {:induction false} IndexOrderIsReverseLex(a: seq<nat>, b: seq<nat>, radices: seq<nat>)
    requires PositiveRadices(radices)
    requires ValidDigits(a, radices) && ValidDigits(b, radices)
    ensures IndexOf(a, radices) < IndexOf(b, radices) <==> ReverseLexLess(a, b)
    decreases |radices|
  {
    if |radices| > 0 {
      var r := radices[0];
      var a', b' := a[1..], b[1..];
      var ia, ib := IndexOf(a', radices[1..]), IndexOf(b', radices[1..]);
      Arith.PlaceValueOrder(a[0], ia, b[0], ib, r);
      IndexOrderIsReverseLex(a', b', radices[1..]);
      DigitsOfIndexOf(a', radices[1..]);
      DigitsOfIndexOf(b', radices[1..]);
      assert ia == ib <==> a' == b';
    }
  }

  /** Visiting indices in increasing order visits digit tuples in increasing
      reverse-lexicographic order. */
  lemma EnumerationOrder(i: nat, j: nat, radices: seq<nat>)
    requires PositiveRadices(radices)
    requires i < Product(radices) && j < Product(radices)
    ensures i < j <==> ReverseLexLess(DigitsOf(i, radices), DigitsOf(j, radices))
  {
    IndexOfDigitsOf(i, radices);
    IndexOfDigitsOf(j, radices);
    IndexOrderIsReverseLex(DigitsOf(i, radices), DigitsOf(j, radices), radices);
  }
}
