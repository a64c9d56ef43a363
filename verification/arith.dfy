/** Facts about multiplication and Euclidean division that the solver does
    not find on its own. */
module Arith {

  lemma SmallDiv(a: nat, p: nat)
    requires p > 0 && a < p
    ensures a / p == 0
  {
  }

  /** Euclidean division splits a number into quotient and remainder. */
  lemma DivMod(x: nat, m: nat)
    requires m > 0
    ensures x == m * (x / m) + x % m
  {
  }

  /** Multiplying by a natural number is monotone. */
  lemma MulMono(a: nat, b: int, c: int)
    ensures b <= c ==> a * b <= a * c
  {
    assert a * c == a * b + a * (c - b);
    if b <= c {
      assert a * (c - b) >= 0;
    }
  }

  /** Quotient and remainder are the unique pair with x == m * q + r and
      0 <= r < m. */
  lemma DivUnique(x: int, m: int, q: int, r: int)
    requires m > 0 && 0 <= r < m && x == m * q + r
    ensures x / m == q && x % m == r
  {
    var q' := x / m;
    var r' := x % m;
    assert x == m * q' + r';
    assert m * (q' - q) == r - r' by {
      assert m * (q' - q) == m * q' - m * q;
    }
    MulMono(m, 1, q' - q);
    MulMono(m, q' - q, -1);
  }

  lemma DivBelow(i: nat, a: nat, b: nat)
    requires a > 0 && i < a * b
    ensures i / a < b
  {
    var q := i / a;
    assert i == a * q + i % a;
    MulMono(a, b, q);
  }

  /** Dividing by a and then by b is dividing by a * b. */
  lemma DivDiv(x: nat, a: nat, b: nat)
    requires a > 0 && b > 0
    ensures x / a / b == x / (a * b)
  {
    var q := x / a;
    var q2 := q / b;
    var rest := a * (q % b) + x % a;
    assert x == a * q + x % a;
    assert q == b * q2 + q % b;
    assert x == (a * b) * q2 + rest by {
      assert a * q == a * (b * q2) + a * (q % b);
      assert a * (b * q2) == (a * b) * q2;
    }
    assert rest < a * b by {
      MulMono(a, q % b, b - 1);
      assert a * (b - 1) == a * b - a;
    }
    DivUnique(x, a * b, q2, rest);
  }

  /** If a / p is even and a < 2p then a < p. */
  lemma EvenQuotientBelowTwice(a: nat, p: nat)
    requires p > 0 && a < 2 * p
    requires (a / p) % 2 == 0
    ensures a < p
  {
    DivBelow(a, p, 2);
    assert a == (a / p) * p + a % p;
  }

  /** A digit below r plus r times a number below p stays below r * p. */
  lemma PlaceValueBelow(d: nat, r: nat, q: nat, p: nat)
    requires d < r && q < p
    ensures d + r * q < r * p
  {
    MulMono(r, q, p - 1);
    assert r * (p - 1) == r * p - r;
  }

  /** Comparing two place-value numbers x0 + r * x and y0 + r * y with
      digits below r compares the high parts first, then the low digits. */
  lemma PlaceValueOrder(x0: nat, x: nat, y0: nat, y: nat, r: nat)
    requires x0 < r && y0 < r
    ensures x0 + r * x < y0 + r * y <==> x < y || (x == y && x0 < y0)
  {
    MulMono(r, x + 1, y);
    MulMono(r, y + 1, x);
    assert r * (x + 1) == r * x + r;
    assert r * (y + 1) == r * y + r;
  }
}
