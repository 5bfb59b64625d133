/**
 Non-negative IEEE 754 doubles as the source computes with them: quotients rounded to 53 significant bits,
 halves to even. A double is counted in units of 2^-160, small enough for every quotient here: the smallest
 positive ones are above 2^-53. From 2^53 on the numbers below have more bits than a double.
 */
module Doubles {

  const TWO52 := 4_503_599_627_370_496
  const TWO53 := 9_007_199_254_740_992

  function Pow2(e: nat): (p: nat)
    ensures 0 < p
  {
    if e == 0 then 1 else 2 * Pow2(e - 1)
  }

  const PRECISION: nat := 160

  /** The double 1. */
  function One(): (p: nat)
    ensures 0 < p
  {
    Pow2(PRECISION)
  }

  /** The nearest integer to n/d, halves going to the even one. */
  function RoundEven(n: nat, d: nat): nat
    requires 0 < d
  {
    if n >= 2 * d then RoundEven(n - 2 * d, d) + 2
    else if 2 * n <= d then 0
    else if 2 * n < 3 * d then 1
    else 2
  }

  /** n/d in units of 2^-e: doubled until it has 53 bits before the point, or no unit is left, and rounded there. */
  function Rounded(n: nat, d: nat, e: nat): nat
    requires 0 < d
    decreases e
  {
    if e == 0 || n >= TWO52 * d then RoundEven(n, d) * Pow2(e) else Rounded(2 * n, d, e - 1)
  }

  /** The double nearest to n/d. */
  function Quotient(n: nat, d: nat): nat
    requires 0 < d
  {
    Rounded(n, d, PRECISION)
  }

  /** The double nearest to a whole number times a double. */
  function Times(n: nat, x: nat): nat {
    Quotient(n * x, One())
  }

  // ---------------------------------------------------------------- rounding error

  /** A nearest integer to n/d, and at an exact half the even one. */
  predicate NearestEven(n: nat, d: nat, q: nat) {
    && 2 * n - d <= 2 * (q * d) <= 2 * n + d
    && (2 * (q * d) == 2 * n - d || 2 * (q * d) == 2 * n + d ==> q % 2 == 0)
  }

  lemma {:induction false} RoundEvenIsNearest(n: nat, d: nat)
    requires 0 < d
    ensures NearestEven(n, d, RoundEven(n, d))
  {
    if n >= 2 * d {
      RoundEvenIsNearest(n - 2 * d, d);
      TwoMore(n, d, RoundEven(n - 2 * d, d));
    }
  }

  lemma TwoMore(n: nat, d: nat, q: nat)
    requires 2 * d <= n && NearestEven(n - 2 * d, d, q)
    ensures NearestEven(n, d, q + 2)
  {
    assert (q + 2) * d == q * d + 2 * d;
  }

  lemma NearestEvenUnique(n: nat, d: nat, x: nat, y: nat)
    requires 0 < d && NearestEven(n, d, x) && NearestEven(n, d, y) && x <= y
    ensures x == y
  {
    var gap := y - x;
    assert y * d == x * d + gap * d;
    AtLeastTwice(gap, d);
  }

  lemma AtLeastTwice(k: nat, d: nat)
    ensures k >= 2 ==> 2 * d <= k * d
    ensures k == 1 ==> k * d == d
  {
    if k >= 2 {
      Product(2, k, d);
    }
  }

  /** Rounding is to the nearest integer, and at an exact half to the even one: no other integer is meant. */
  lemma RoundEvenMeaning(n: nat, d: nat, q: nat)
    requires 0 < d
    ensures RoundEven(n, d) == q
       <==> 2 * n - d <= 2 * (q * d) <= 2 * n + d
            && (2 * (q * d) == 2 * n - d || 2 * (q * d) == 2 * n + d ==> q % 2 == 0)
  {
    RoundEvenIsNearest(n, d);
    if NearestEven(n, d, q) {
      if RoundEven(n, d) <= q {
        NearestEvenUnique(n, d, RoundEven(n, d), q);
      } else {
        NearestEvenUnique(n, d, q, RoundEven(n, d));
      }
    }
  }

  lemma {:induction false} RoundEvenExact(k: nat, d: nat)
    requires 0 < d
    ensures RoundEven(k * d, d) == k
  {
    if k >= 2 {
      assert k * d - 2 * d == (k - 2) * d && (k - 2) * d >= 0;
      RoundEvenExact(k - 2, d);
    }
  }

  /** At most a 2^-53rd part of `n` either way. */
  predicate Off(x: int, n: int) {
    -n <= TWO53 * x <= n
  }

  /** A rounded quotient misses by at most half a unit in its 53rd bit. */
  lemma {:induction false} RoundedError(n: nat, d: nat, e: nat)
    requires 0 < d && TWO52 * d <= n * Pow2(e)
    ensures Off(Rounded(n, d, e) * d - n * Pow2(e), n * Pow2(e))
    decreases e
  {
    if e == 0 || n >= TWO52 * d {
      RoundEvenIsNearest(n, d);
      Scaled(RoundEven(n, d), n, d, Pow2(e));
    } else {
      assert 2 * n * Pow2(e - 1) == n * Pow2(e);
      RoundedError(2 * n, d, e - 1);
    }
  }

  lemma Scaled(q: nat, n: nat, d: nat, p: nat)
    requires TWO52 * d <= n && 2 * n - d <= 2 * (q * d) <= 2 * n + d
    ensures Off((q * p) * d - n * p, n * p)
  {
    var miss: int := q * d - n;
    assert (q * p) * d - n * p == miss * p;
    assert TWO53 * (miss * p) == (TWO53 * miss) * p;
    Product(-1 * n, TWO53 * miss, p);
    Product(TWO53 * miss, n, p);
  }

  lemma Product(x: int, y: int, p: nat)
    requires x <= y
    ensures x * p <= y * p
  {
    assert 0 <= (y - x) * p;
  }

  /** Whole numbers are exact. */
  lemma {:induction false} RoundedExact(k: nat, d: nat, e: nat)
    requires 0 < d
    ensures Rounded(k * d, d, e) == k * Pow2(e)
    decreases e
  {
    var n := k * d;
    if e == 0 || n >= TWO52 * d {
      RoundEvenExact(k, d);
    } else {
      assert 2 * n == (2 * k) * d;
      RoundedExact(2 * k, d, e - 1);
      assert 2 * k * Pow2(e - 1) == k * Pow2(e);
    }
  }

  lemma {:induction false} Pow2Sum(a: nat, b: nat)
    ensures Pow2(a + b) == Pow2(a) * Pow2(b)
  {
    if a > 0 {
      Pow2Sum(a - 1, b);
    }
  }

  lemma Pow2Of52()
    ensures Pow2(52) == TWO52
  {
    assert Pow2(13) == 8192;
    Pow2Sum(13, 13);
    Pow2Sum(26, 26);
  }

  /** One is 2^160. */
  lemma OneIsLarge()
    ensures One() == 16 * TWO52 * TWO52 * TWO52
  {
    Pow2Of52();
    assert Pow2(4) == 16;
    Pow2Sum(4, 52);
    Pow2Sum(56, 52);
    Pow2Sum(108, 52);
  }

  /** The error of a quotient of at least 2^-108. */
  lemma QuotientError(n: nat, d: nat)
    requires 0 < d && TWO52 * d <= n * One()
    ensures Off(Quotient(n, d) * d - n * One(), n * One())
  {
    RoundedError(n, d, PRECISION);
  }

  lemma QuotientExact(k: nat, d: nat)
    requires 0 < d
    ensures Quotient(k * d, d) == k * One()
  {
    RoundedExact(k, d, PRECISION);
  }

  lemma {:induction false} RoundedDoubled(n: nat, d: nat, e: nat, k: nat)
    requires 0 < d && k <= e && (k == 0 || n * Pow2(k - 1) < TWO52 * d)
    ensures Rounded(n, d, e) == Rounded(n * Pow2(k), d, e - k)
    decreases k
  {
    if k > 0 {
      assert n * Pow2(k) == 2 * n * Pow2(k - 1);
      Product(1, Pow2(k - 1), n);
      if k > 1 {
        assert n * Pow2(k - 1) == 2 * n * Pow2(k - 2);
      }
      RoundedDoubled(2 * n, d, e - 1, k - 1);
    }
  }

  lemma SameFactor(x: nat, y: nat, p: nat)
    requires 0 < p
    ensures x * p == y * p <==> x == y
  {
    if x < y {
      Product(x + 1, y, p);
    } else if y < x {
      Product(y + 1, x, p);
    }
  }

  /**
   The quotient is the double IEEE 754 prescribes. With k doublings n/d has its 53 bits before the point;
   the result has the significand q exactly if q is nearest there and, between two, the even one.
   */
  lemma QuotientMeaning(n: nat, d: nat, k: nat, q: nat)
    requires 0 < d && k <= PRECISION && TWO52 * d <= n * Pow2(k) && (k == 0 || n * Pow2(k - 1) < TWO52 * d)
    ensures var m := n * Pow2(k);
            Quotient(n, d) == q * Pow2(PRECISION - k)
            <==> 2 * m - d <= 2 * (q * d) <= 2 * m + d
                 && (2 * (q * d) == 2 * m - d || 2 * (q * d) == 2 * m + d ==> q % 2 == 0)
  {
    RoundedDoubled(n, d, PRECISION, k);
    RoundEvenMeaning(n * Pow2(k), d, q);
    SameFactor(RoundEven(n * Pow2(k), d), q, Pow2(PRECISION - k));
  }
}
