/**
 The range in which the model's exact rules are what the source computes in doubles
 (`packages/domain/src/money.ts`): products below 2^53, and for `scaleMoney` a quarter of that. Within it
 `Math.floor` of a share is its exact whole part, doubles order different fractions as they are, and
 `Math.round` of a scaled amount is the nearest unit.
 */
module DoubleRange {
  import opened Sequences
  import opened Doubles
  import opened Money

  ghost predicate ExactProducts(m: nat, weights: seq<int>) {
    m * Sum(weights) < TWO53
  }

  // ---------------------------------------------------------------- shares

  /** `x`, counted in units of 1/one, is f/d up to a 2^-53rd part of n/d, and exactly if f is zero. */
  predicate Close(x: int, f: int, d: int, n: int, one: int) {
    Off(x * d - f * one, n * one) && (f == 0 ==> x == 0)
  }

  lemma FractionIsClose(m: nat, weights: seq<int>, i: nat)
    requires ValidWeights(weights) && ExactProducts(m, weights) && i < |weights|
    ensures Close(DoubleFraction(m, weights, i), FractionOf(m, weights, i), Sum(weights), m * weights[i], One())
  {
    ProductInRange(m, weights, i);
    ExactShare(m, weights, i);
    ShareIsClose(m * weights[i], Sum(weights), FloorOf(m, weights, i), FractionOf(m, weights, i));
  }

  lemma ShareIsClose(n: nat, d: nat, floor: nat, f: nat)
    requires 0 < d && n == d * floor + f && (n == 0 || d < TWO53)
    ensures Close(Quotient(n, d) - floor * One(), f, d, n, One())
  {
    if f == 0 {
      WholeShare(n, d, floor);
    } else {
      ShareError(n, d);
    }
    TakeWhole(Quotient(n, d), n, d, floor, f, One());
  }

  lemma WholeShare(n: nat, d: nat, floor: nat)
    requires 0 < d && n == d * floor
    ensures Quotient(n, d) == floor * One() && Off(Quotient(n, d) * d - n * One(), n * One())
  {
    assert n == floor * d;
    QuotientExact(floor, d);
    Regrouped(floor, d, One());
    Product(0, n, One());
  }

  lemma Regrouped(floor: nat, d: nat, one: nat)
    ensures (floor * one) * d == (floor * d) * one
  {
  }

  lemma ShareError(n: nat, d: nat)
    requires 0 < n && 0 < d < TWO53
    ensures Off(Quotient(n, d) * d - n * One(), n * One())
  {
    OneIsLarge();
    Product(1, n, One());
    QuotientError(n, d);
  }

  lemma TakeWhole(x: int, n: nat, d: nat, floor: nat, f: nat, one: nat)
    requires n == d * floor + f
    ensures (x - floor * one) * d - f * one == x * d - n * one
  {
    assert n * one == d * floor * one + f * one;
    assert (x - floor * one) * d == x * d - floor * one * d;
  }

  lemma ProductInRange(m: nat, weights: seq<int>, i: nat)
    requires ValidWeights(weights) && ExactProducts(m, weights) && i < |weights|
    ensures 0 <= m * weights[i] < TWO53
    ensures m * weights[i] == 0 || Sum(weights) < TWO53
  {
    SumBoundsEntries(weights);
    MulOrder(m, 0, weights[i]);
    MulOrder(m, weights[i], Sum(weights));
    if m >= 1 {
      MulOrder(Sum(weights), 1, m);
    }
  }

  /** Products of the amount with two weights together stay within the range. */
  lemma ProductsInRange(m: nat, weights: seq<int>, i: nat, j: nat)
    requires ValidWeights(weights) && ExactProducts(m, weights) && i < |weights| && j < |weights| && i != j
    ensures m * weights[i] + m * weights[j] < TWO53
  {
    SumRemove(weights, i);
    var rest := weights[..i] + weights[i + 1..];
    SumBoundsEntries(rest);
    assert weights[j] == rest[if j < i then j else j - 1];
    MulOrder(m, weights[i] + weights[j], Sum(weights));
    assert m * (weights[i] + weights[j]) == m * weights[i] + m * weights[j];
  }

  /** `Math.floor` of the share as a double is the whole part of the exact share. */
  lemma FloorAgrees(m: nat, weights: seq<int>, i: nat)
    requires ValidWeights(weights) && ExactProducts(m, weights) && i < |weights|
    ensures 0 <= m * weights[i] && DoubleFraction(m, weights, i) == Quotient(m * weights[i], Sum(weights)) % One()
    ensures Quotient(m * weights[i], Sum(weights)) / One() == FloorOf(m, weights, i)
  {
    ProductInRange(m, weights, i);
    FractionIsClose(m, weights, i);
    ExactShare(m, weights, i);
    CloseIsProper(DoubleFraction(m, weights, i), FractionOf(m, weights, i), Sum(weights), m * weights[i], One());
    WholePart(Quotient(m * weights[i], Sum(weights)), FloorOf(m, weights, i), One());
  }

  lemma CloseIsProper(x: int, f: nat, d: nat, n: nat, one: nat)
    requires Close(x, f, d, n, one) && f < d && n < TWO53 && 0 < one
    ensures 0 <= x < one
  {
    Product(n, TWO53 - 1, one);
    Product(f + 1, d, one);
    if f > 0 {
      Product(1, f, one);
    }
    assert (f + 1) * one == f * one + one;
    BetweenMultiples(x, d, one);
  }

  lemma BetweenMultiples(x: int, d: nat, one: nat)
    requires 0 < d && (x == 0 || 0 < x * d) && x * d < d * one
    ensures 0 <= x && (x == 0 || x < one)
  {
    if x < 0 {
      Product(x, -1, d);
    } else if x >= one {
      Product(one, x, d);
    }
  }

  lemma WholePart(x: int, floor: int, one: nat)
    requires 0 < one && 0 <= x - floor * one < one
    ensures x / one == floor && x % one == x - floor * one
  {
    var q := x / one;
    assert x == q * one + x % one;
    if q < floor {
      Product(q + 1, floor, one);
    } else if q > floor {
      Product(floor + 1, q, one);
    }
  }

  lemma LargerFractionLargerDouble(m: nat, weights: seq<int>, i: nat, j: nat)
    requires ValidWeights(weights) && ExactProducts(m, weights) && i < |weights| && j < |weights|
    requires FractionOf(m, weights, j) < FractionOf(m, weights, i)
    ensures DoubleFraction(m, weights, j) < DoubleFraction(m, weights, i)
  {
    ProductsInRange(m, weights, i, j);
    FractionIsClose(m, weights, i);
    FractionIsClose(m, weights, j);
    CloseKeepsOrder(DoubleFraction(m, weights, i), DoubleFraction(m, weights, j), FractionOf(m, weights, i), FractionOf(m, weights, j),
                    Sum(weights), m * weights[i], m * weights[j], One());
  }

  lemma CloseKeepsOrder(x: int, y: int, f: int, g: int, d: int, a: int, b: int, one: nat)
    requires Close(x, f, d, a, one) && Close(y, g, d, b, one) && 0 < d && 0 < one && a + b < TWO53 && g < f
    ensures y < x
  {
    Product(a + b, TWO53 - 1, one);
    Product(g + 1, f, one);
    assert (a + b) * one == a * one + b * one && (g + 1) * one == g * one + one;
    assert y * d < x * d;
    if x <= y {
      Product(x, y, d);
    }
  }

  /** The queue is the one the source sorts: by the fractions of the doubles, then by index. */
  lemma DoublesKeepOrder(m: nat, weights: seq<int>, i: nat, j: nat)
    requires ValidWeights(weights) && ExactProducts(m, weights) && i < |weights| && j < |weights|
    ensures Before(Keys(m, weights), i, j)
       <==> DoubleFraction(m, weights, i) > DoubleFraction(m, weights, j)
            || (DoubleFraction(m, weights, i) == DoubleFraction(m, weights, j) && i < j)
  {
    if FractionOf(m, weights, i) > FractionOf(m, weights, j) {
      LargerFractionLargerDouble(m, weights, i, j);
    } else if FractionOf(m, weights, j) > FractionOf(m, weights, i) {
      LargerFractionLargerDouble(m, weights, j, i);
    }
  }

  // ---------------------------------------------------------------- scaleMoney

  predicate Within(x: int, one: int) {
    -one < x < one
  }

  /** The product of two rounded steps misses amount * bps / 10000 by less than a ten-thousandth. */
  lemma ScaledMiss(amount: nat, bps: nat)
    requires 0 < bps <= 10_000 && 0 < amount && 40_000 * amount <= TWO53
    ensures Within(ScaledDouble(amount, bps) * 10_000 - amount * bps * One(), One())
  {
    var ratio := Quotient(bps, 10_000);
    OneIsLarge();
    Product(1, bps, One());
    QuotientError(bps, 10_000);
    RatioIsLarge(ratio, bps, One());
    ProductError(amount, ratio);
    RatioMiss(amount, bps, ratio, ScaledDouble(amount, bps), One());
  }

  lemma RatioIsLarge(ratio: int, bps: nat, one: nat)
    requires 0 < bps && Off(ratio * 10_000 - bps * one, bps * one) && 10_000 * TWO53 <= one
    ensures TWO52 <= ratio
  {
    Product(1, bps, one);
  }

  /** The product's own error. */
  lemma ProductError(amount: nat, ratio: nat)
    requires 0 < amount && TWO52 <= ratio
    ensures Off(Times(amount, ratio) - amount * ratio, amount * ratio)
  {
    var n := amount * ratio;
    Product(1, amount, ratio);
    Product(TWO52, n, One());
    QuotientError(n, One());
    Divided(Times(amount, ratio), n, One());
  }

  lemma Divided(x: int, n: int, one: nat)
    requires 0 < one && Off(x * one - n * one, n * one)
    ensures Off(x - n, n)
  {
    assert (TWO53 * (x - n)) * one == TWO53 * (x * one - n * one);
    CancelOne(TWO53 * (x - n), n, one);
    assert (-1 * n) * one == -1 * (n * one);
    CancelOne(-1 * n, TWO53 * (x - n), one);
  }

  lemma CancelOne(x: int, y: int, one: nat)
    requires 0 < one && x * one <= y * one
    ensures x <= y
  {
    if x > y {
      Product(y + 1, x, one);
    }
  }

  /** Both errors together. */
  lemma RatioMiss(amount: nat, bps: nat, ratio: int, x: int, one: nat)
    requires bps <= 10_000 && 0 < amount && 40_000 * amount <= TWO53 && 0 < one
    requires Off(ratio * 10_000 - bps * one, bps * one) && Off(x - amount * ratio, amount * ratio)
    ensures Within(x * 10_000 - amount * bps * one, one)
  {
    var exact, miss := bps * one, ratio * 10_000 - bps * one;
    assert amount * bps * one == amount * exact;
    ScaledBy(amount, miss, exact);
    assert amount * miss == amount * ratio * 10_000 - amount * exact;
    AddMisses(x - amount * ratio, amount * ratio, amount * miss, amount * exact);
    BelowQuarter(amount, bps, one);
  }

  lemma ScaledBy(amount: nat, miss: int, exact: nat)
    requires Off(miss, exact)
    ensures Off(amount * miss, amount * exact) && amount * miss <= amount * exact
  {
    MulOrder(amount, miss, exact);
    MulOrder(amount, TWO53 * miss, exact);
    MulOrder(amount, -1 * exact, TWO53 * miss);
    assert amount * (TWO53 * miss) == TWO53 * (amount * miss);
    assert amount * (-1 * exact) == -1 * (amount * exact);
  }

  lemma AddMisses(u: int, product: int, scaled: int, exact: int)
    requires Off(u, product) && Off(scaled, exact) && scaled <= exact
    requires product * 10_000 == scaled + exact
    ensures -(3 * exact) <= TWO53 * (10_000 * u + scaled) <= 3 * exact
  {
  }

  lemma BelowQuarter(amount: nat, bps: nat, one: nat)
    requires bps <= 10_000 && 40_000 * amount <= TWO53
    ensures 4 * (amount * (bps * one)) <= TWO53 * one
  {
    Product(bps, 10_000, one);
    MulOrder(amount, bps * one, 10_000 * one);
    assert 4 * (amount * (10_000 * one)) == (40_000 * amount) * one;
    Product(40_000 * amount, TWO53, one);
  }

  lemma NothingScaled(amount: nat, bps: nat)
    requires amount == 0 || bps == 0
    ensures ScaledDouble(amount, bps) == 0 && amount * bps == 0
  {
    QuotientExact(0, 10_000);
    QuotientExact(0, One());
  }

  lemma ScaledClose(amount: nat, bps: nat)
    requires bps <= 10_000 && 40_000 * amount <= TWO53
    ensures 0 <= amount * bps && Within(ScaledDouble(amount, bps) * 10_000 - amount * bps * One(), One())
  {
    if amount == 0 || bps == 0 {
      NothingScaled(amount, bps);
    } else {
      ScaledMiss(amount, bps);
    }
    MulOrder(amount, 0, bps);
  }

  /** `Math.round` of the double the source computes is the model's amount. */
  lemma ScaleAgrees(amount: nat, bps: nat)
    requires bps <= 10_000 && 40_000 * amount <= TWO53
    ensures RoundDiv(ScaledDouble(amount, bps), One()) == ScaleByBps(amount, bps)
  {
    ScaledClose(amount, bps);
    RoundsTo(ScaledDouble(amount, bps), amount * bps, One());
    assert amount * bps == 0 || 0 < bps;
  }

  /** Rounding a number that close to n/10000 rounds n/10000, except that it decides an exact half itself. */
  lemma RoundsTo(x: int, n: nat, one: nat)
    requires 0 < one && Within(x * 10_000 - n * one, one)
    ensures RoundDiv(x, one) == HalfDecided(x, n, one)
  {
    var floor, r := n / 10_000, n % 10_000;
    RemainderBounds(r, one);
    DivideUp(n, floor, r, one);
    NearParts(x, floor * one, r * one, r, one);
    HalfDecidedAt(x, n, floor, r, floor * one, one);
  }

  lemma HalfDecidedAt(x: int, n: nat, floor: nat, r: nat, whole: int, one: nat)
    requires 0 < one && floor == n / 10_000 && r == n % 10_000 && whole == floor * one
    requires r < 5_000 ==> 2 * whole - one <= 2 * x < 2 * whole + one
    requires r == 5_000 ==> 2 * whole - one <= 2 * x < 2 * whole + 3 * one
    requires r > 5_000 ==> 2 * whole + one <= 2 * x < 2 * whole + 3 * one
    ensures RoundDiv(x, one) == HalfDecided(x, n, one)
  {
    assert (2 * floor + 1) * one == 2 * whole + one;
    if r < 5_000 || (r == 5_000 && 2 * x < 2 * whole + one) {
      RoundsToWhole(x, one, floor, whole);
    } else {
      assert (floor + 1) * one == whole + one;
      RoundsToWhole(x, one, floor + 1, whole + one);
    }
  }

  lemma DivideUp(n: nat, floor: nat, r: nat, one: nat)
    requires n == 10_000 * floor + r
    ensures n * one == 10_000 * (floor * one) + r * one
  {
  }

  lemma RoundsToWhole(x: int, one: nat, k: int, whole: int)
    requires 0 < one && whole == k * one && 2 * whole - one <= 2 * x < 2 * whole + one
    ensures RoundDiv(x, one) == k
  {
    assert 2 * one * k == 2 * whole;
    RoundDivNearest(x, one, k);
  }

  function HalfDecided(x: int, n: nat, one: nat): int {
    var floor, r := n / 10_000, n % 10_000;
    if 2 * r == 10_000 && 2 * x < (2 * floor + 1) * one then floor
    else if 2 * r < 10_000 then floor else floor + 1
  }

  lemma RemainderBounds(r: nat, one: nat)
    requires r < 10_000
    ensures r < 5_000 ==> r * one <= 4_999 * one
    ensures r > 5_000 ==> 5_001 * one <= r * one <= 9_999 * one
  {
    if r < 5_000 {
      Product(r, 4_999, one);
    } else if r > 5_000 {
      Product(5_001, r, one);
      Product(r, 9_999, one);
    }
  }

  lemma NearParts(x: int, whole: int, part: nat, r: nat, one: nat)
    requires 0 < one && Within(x * 10_000 - 10_000 * whole - part, one)
    requires r < 5_000 ==> part <= 4_999 * one
    requires r == 5_000 ==> part == 5_000 * one
    requires r > 5_000 ==> 5_001 * one <= part <= 9_999 * one
    ensures r < 5_000 ==> 2 * whole - one <= 2 * x < 2 * whole + one
    ensures r == 5_000 ==> 2 * whole - one <= 2 * x < 2 * whole + 3 * one
    ensures r > 5_000 ==> 2 * whole + one <= 2 * x < 2 * whole + 3 * one
  {
  }

  // ---------------------------------------------------------------- a tie that doubles decide

  lemma Normalised(n: nat, d: nat, k: nat, p: nat, q: nat)
    requires 0 < d && k < PRECISION && Pow2(k) == p && n * p < TWO52 * d <= 2 * (n * p)
    requires NearestEven(2 * (n * p), d, q)
    ensures Quotient(n, d) == q * Pow2(PRECISION - k - 1)
  {
    assert n * Pow2(k + 1) == 2 * (n * p);
    QuotientMeaning(n, d, k + 1, q);
  }

  lemma HalvedPowers()
    ensures Pow2(51) == 2_251_799_813_685_248 && Pow2(53) == TWO53
  {
    Pow2Of52();
    Pow2Sum(1, 51);
    Pow2Sum(1, 52);
  }

  /** Equal fractions over different whole parts: 1.3334 - 1 is below 0.3334 in doubles. */
  lemma OneThirdOff(n: nat, k: nat, d: nat)
    requires n == 13_334 && k == 3_334 && d == 10_000
    ensures Quotient(n, d) - One() < Quotient(k, d)
  {
    HalvedPowers();
    Normalised(n, d, 51, 2_251_799_813_685_248, 6_005_099_743_135_819);
    Normalised(k, d, 53, TWO53, 6_006_000_463_061_293);
    UnitsOfBoth();
  }

  lemma UnitsOfBoth()
    ensures Pow2(PRECISION - 52) == 4 * Pow2(PRECISION - 54) && One() == 18_014_398_509_481_984 * Pow2(PRECISION - 54)
  {
    HalvedPowers();
    Pow2Sum(2, PRECISION - 54);
    Pow2Sum(1, 53);
    Pow2Sum(54, PRECISION - 54);
  }

  /** So of two units over these weights the source gives the second to the second position, not to the first. */
  lemma DoublesDecideTie(weights: seq<int>)
    requires weights == [6667, 1667, 1666]
    ensures ValidWeights(weights) && Apportion(2, weights) == [1, 1, 0]
  {
    TwoUnitsTied(weights);
    TwoRightSplits(weights);
    SumOfThree(6667, 1667, 1666);
    OneThirdOff(2 * weights[0], 2 * weights[1], Sum(weights));
    ApportionIsLargestRemainder(2, weights);
    SecondBeforeFirst(2, weights, [1, 1, 0]);
    LargestRemainderUnique(2, weights, Apportion(2, weights), [1, 1, 0]);
  }

  lemma SecondBeforeFirst(m: nat, weights: seq<int>, parts: seq<int>)
    requires |weights| == 3 && ValidWeights(weights)
    requires Floors(m, weights) == [1, 0, 0] && Fractions(m, weights) == [3334, 3334, 3332]
    requires 0 <= m * weights[0] && 0 <= m * weights[1]
    requires Quotient(m * weights[0], Sum(weights)) - One() < Quotient(m * weights[1], Sum(weights))
    requires parts == [1, 1, 0]
    ensures InQueueOrder(m, weights, parts)
  {
    KeyOf(m, weights, 0, 3334, 1);
    KeyOf(m, weights, 1, 3334, 0);
    KeyOf(m, weights, 2, 3332, 0);
    SecondServed(m, weights, Keys(m, weights), Quotient(m * weights[0], Sum(weights)), Quotient(m * weights[1], Sum(weights)), parts);
  }

  lemma KeyOf(m: nat, weights: seq<int>, i: nat, fraction: int, floor: int)
    requires ValidWeights(weights) && i < |weights|
    requires Fractions(m, weights)[i] == fraction && Floors(m, weights)[i] == floor
    ensures 0 <= m * weights[i]
    ensures Keys(m, weights)[i] == Key(fraction, Quotient(m * weights[i], Sum(weights)) - floor * One())
  {
    MulOrder(m, 0, weights[i]);
  }

  lemma SecondServed(m: nat, weights: seq<int>, keys: seq<Key>, first: int, second: int, parts: seq<int>)
    requires ValidWeights(weights) && keys == Keys(m, weights) && Floors(m, weights) == [1, 0, 0] && |keys| == 3
    requires keys[0] == Key(3334, first - One()) && keys[1] == Key(3334, second) && keys[2].fraction == 3332
    requires first - One() < second && parts == [1, 1, 0]
    ensures InQueueOrder(m, weights, parts)
  {
  }

  /** A half that doubles round down: 29 percent of 50 units is proposed as 14. */
  lemma HalfGoesDown(amount: nat, bps: nat)
    requires amount == 50 && bps == 2_900
    ensures ScaleByBps(amount, bps) == 14
  {
    RatioOf29(bps, 10_000);
    UnitsOfBoth();
    JustBelowHalf(amount * (5_224_175_567_749_775 * Pow2(PRECISION - 54)), Pow2(PRECISION - 54), One());
    HalfFallsShort(amount, bps);
  }

  lemma HalfFallsShort(amount: nat, bps: nat)
    requires amount == 50 && bps == 2_900 && 2 * ScaledDouble(amount, bps) < 29 * One()
    ensures ScaleByBps(amount, bps) == 14
  {
    assert amount * bps == 145_000;
  }

  lemma RatioOf29(n: nat, d: nat)
    requires n == 2_900 && d == 10_000
    ensures Quotient(n, d) == 5_224_175_567_749_775 * Pow2(PRECISION - 54)
  {
    HalvedPowers();
    Normalised(n, d, 53, TWO53, 5_224_175_567_749_775);
  }

  lemma JustBelowHalf(n: nat, unit: nat, one: nat)
    requires unit == Pow2(PRECISION - 54) && one == One() && one == 18_014_398_509_481_984 * unit
    requires n == 261_208_778_387_488_750 * unit
    ensures 2 * Quotient(n, one) < 29 * one
  {
    PowerOf48();
    HalfNumbers(n, unit, one);
    Normalised(n, one, 48, 281_474_976_710_656, 8_162_774_324_609_023);
    UnitsOf49(unit);
  }

  lemma PowerOf48()
    ensures Pow2(48) == 281_474_976_710_656
  {
    HalvedPowers();
    assert Pow2(3) == 8;
    Pow2Sum(48, 3);
  }

  lemma UnitsOf49(unit: nat)
    requires unit == Pow2(PRECISION - 54)
    ensures Pow2(PRECISION - 49) == 32 * unit
  {
    assert Pow2(5) == 32;
    Pow2Sum(5, PRECISION - 54);
  }

  lemma HalfNumbers(n: nat, unit: nat, one: nat)
    requires 0 < unit && one == 18_014_398_509_481_984 * unit && n == 261_208_778_387_488_750 * unit
    ensures var p, q := 281_474_976_710_656, 8_162_774_324_609_023;
            && n * p < TWO52 * one <= 2 * (n * p)
            && NearestEven(2 * (n * p), one, q)
  {
  }

  // ---------------------------------------------------------------- a tie between doubles

  /** 10 times the double 0.35 lies halfway between 3.5 and the double before it, and becomes 3.5: 4 units, not 3. */
  lemma TieGoesToEven(amount: nat, bps: nat)
    requires amount == 10 && bps == 3_500
    ensures ScaleByBps(amount, bps) == 4
  {
    RatioOf35(bps, 10_000);
    UnitsOfBoth();
    HalfReached(amount * (6_305_039_478_318_694 * Pow2(PRECISION - 54)), Pow2(PRECISION - 54), One());
    assert amount * bps == 35_000;
  }

  lemma RatioOf35(n: nat, d: nat)
    requires n == 3_500 && d == 10_000
    ensures Quotient(n, d) == 6_305_039_478_318_694 * Pow2(PRECISION - 54)
  {
    HalvedPowers();
    Normalised(n, d, 53, TWO53, 6_305_039_478_318_694);
  }

  lemma HalfReached(n: nat, unit: nat, one: nat)
    requires unit == Pow2(PRECISION - 54) && one == One() && one == 18_014_398_509_481_984 * unit
    requires n == 63_050_394_783_186_940 * unit
    ensures 2 * Quotient(n, one) == 7 * one
  {
    PowerOf50();
    TieNumbers(n, unit, one);
    Normalised(n, one, 50, 1_125_899_906_842_624, 7_881_299_347_898_368);
    UnitsOf51(unit);
  }

  lemma PowerOf50()
    ensures Pow2(50) == 1_125_899_906_842_624
  {
    HalvedPowers();
  }

  lemma UnitsOf51(unit: nat)
    requires unit == Pow2(PRECISION - 54)
    ensures Pow2(PRECISION - 51) == 8 * unit
  {
    assert Pow2(3) == 8;
    Pow2Sum(3, PRECISION - 54);
  }

  lemma TieNumbers(n: nat, unit: nat, one: nat)
    requires 0 < unit && one == 18_014_398_509_481_984 * unit && n == 63_050_394_783_186_940 * unit
    ensures var p, q := 1_125_899_906_842_624, 7_881_299_347_898_368;
            && n * p < TWO52 * one <= 2 * (n * p)
            && NearestEven(2 * (n * p), one, q)
  {
  }
}
