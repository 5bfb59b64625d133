/**
 Integer money (`packages/domain/src/money.ts`). An amount is a count of minor units in one fixed
 currency. Splitting an amount follows the largest-remainder rule; `LargestRemainder` states that
 rule without mentioning how the split is computed, and leaves open who comes first among equal fractions.
 The source orders those by doubles, in which equal fractions over different whole parts may differ, and
 then by index; the queue here does the same. What is proved of a split elsewhere needs the rule alone.
 */
module Money {
  import opened Prelude
  import opened Sequences
  import opened Doubles

  datatype MoneyError = NoWeights | NegativeWeight | ZeroTotalWeight

  // ---------------------------------------------------------------- rounding

  /** `Math.round(n / d)`: the nearest integer, halves going up. */
  function RoundDiv(n: int, d: int): int
    requires 0 < d
  {
    (2 * n + d) / (2 * d)
  }

  /** What doubles make of amount * (bps / 10000): the ratio is rounded first, then the product. */
  function ScaledDouble(amount: nat, bps: nat): nat {
    Times(amount, Quotient(bps, 10_000))
  }

  /**
   `scaleMoney(amount, bps / 10000)`: rounded to the nearest unit. Only the product of an exact half is
   decided by the doubles, which may fall short of it.
   */
  function ScaleByBps(amount: int, bps: int): int {
    var floor, r := (amount * bps) / 10_000, (amount * bps) % 10_000;
    if 2 * r == 10_000 && 0 <= amount && 0 <= bps && 2 * ScaledDouble(amount, bps) < (2 * floor + 1) * One() then floor
    else RoundDiv(amount * bps, 10_000)
  }

  /** The rounded quotient is the only integer q with q - 1/2 <= n/d < q + 1/2. */
  lemma RoundDivNearest(n: int, d: int, q: int)
    requires 0 < d
    ensures RoundDiv(n, d) == q <==> 2 * d * q - d <= 2 * n < 2 * d * q + d
  {
    var m := 2 * n + d;
    var r := m / (2 * d);
    assert m == r * (2 * d) + m % (2 * d);
    assert r * (2 * d) == 2 * d * r;
    if q < r {
      MulOrder(2 * d, q + 1, r);
      assert 2 * d * (q + 1) == 2 * d * q + 2 * d;
    } else if q > r {
      MulOrder(2 * d, r + 1, q);
      assert 2 * d * (r + 1) == 2 * d * r + 2 * d;
    }
  }

  lemma MulOrder(c: int, x: int, y: int)
    requires 0 <= c && x <= y
    ensures c * x <= c * y
  {
    assert 0 <= c * (y - x);
  }

  /** A part between 0% and 100% of a non-negative amount rounds to something between 0 and the amount. */
  lemma ScaleWithin(amount: int, bps: int)
    requires 0 <= amount && 0 <= bps <= 10_000
    ensures 0 <= ScaleByBps(amount, bps) <= amount
  {
    MulOrder(amount, 0, bps);
    MulOrder(amount, bps, 10_000);
  }

  /** Within half a unit of n/d: a nearest integer, an exact half going either way. */
  predicate Nearest(n: int, d: int, q: int) {
    2 * n - d <= 2 * d * q <= 2 * n + d
  }

  lemma ScaleIsNearest(amount: int, bps: int)
    ensures Nearest(amount * bps, 10_000, ScaleByBps(amount, bps))
  {
    var n := amount * bps;
    assert n == 10_000 * (n / 10_000) + n % 10_000;
  }

  // ---------------------------------------------------------------- the largest-remainder rule

  predicate ValidWeights(weights: seq<int>) {
    && (forall i :: 0 <= i < |weights| ==> 0 <= weights[i])
    && 0 < Sum(weights)
  }

  /** Whole units in the exact share `m * weights[i] / Sum(weights)`. */
  function FloorOf(m: nat, weights: seq<int>, i: nat): nat
    requires ValidWeights(weights) && i < |weights|
  {
    MulOrder(m, 0, weights[i]);
    (m * weights[i]) / Sum(weights)
  }

  /** The fractional part of the exact share, as a numerator over `Sum(weights)`. */
  function FractionOf(m: nat, weights: seq<int>, i: nat): (r: nat)
    requires ValidWeights(weights) && i < |weights|
  {
    (m * weights[i]) % Sum(weights)
  }

  function Floors(m: nat, weights: seq<int>): seq<int>
    requires ValidWeights(weights)
  {
    seq(|weights|, i requires 0 <= i < |weights| => FloorOf(m, weights, i))
  }

  function Fractions(m: nat, weights: seq<int>): seq<int>
    requires ValidWeights(weights)
  {
    seq(|weights|, i requires 0 <= i < |weights| => FractionOf(m, weights, i))
  }

  /** Units left over once every share has been rounded down. */
  function Leftover(m: nat, weights: seq<int>): int
    requires ValidWeights(weights)
  {
    m - Sum(Floors(m, weights))
  }

  /** What the remainder queue is sorted by: the exact fraction, and what is left of the share as a double. */
  datatype Key = Key(fraction: int, double: int)

  /** The share as a double, less its whole part. */
  function DoubleFraction(m: nat, weights: seq<int>, i: nat): int
    requires ValidWeights(weights) && i < |weights|
  {
    MulOrder(m, 0, weights[i]);
    Quotient(m * weights[i], Sum(weights)) - FloorOf(m, weights, i) * One()
  }

  function Keys(m: nat, weights: seq<int>): seq<Key>
    requires ValidWeights(weights)
  {
    seq(|weights|, i requires 0 <= i < |weights| => Key(FractionOf(m, weights, i), DoubleFraction(m, weights, i)))
  }

  /**
   The order of the remainder queue: larger fraction first, then larger double, then smaller index. The
   source compares doubles and indices; `DoublesKeepOrder` shows that doubles never contradict fractions.
   */
  predicate Before(keys: seq<Key>, i: nat, j: nat)
    requires i < |keys| && j < |keys|
  {
    || keys[i].fraction > keys[j].fraction
    || (keys[i].fraction == keys[j].fraction
        && (keys[i].double > keys[j].double || (keys[i].double == keys[j].double && i < j)))
  }

  /**
   The largest-remainder rule: the parts sum to `m`; each is its exact share rounded down, plus at
   most one unit; and nobody without that unit has a larger fraction than somebody with it.
   */
  ghost predicate LargestRemainder(m: nat, weights: seq<int>, parts: seq<int>)
    requires ValidWeights(weights)
  {
    && |parts| == |weights|
    && Sum(parts) == m
    && ServesLargestFractions(Floors(m, weights), Fractions(m, weights), parts)
  }

  ghost predicate ServesLargestFractions(floors: seq<int>, fractions: seq<int>, parts: seq<int>)
    requires |floors| == |fractions| == |parts|
  {
    && (forall i :: 0 <= i < |parts| ==> parts[i] == floors[i] || parts[i] == floors[i] + 1)
    && (forall i, j :: 0 <= i < |parts| && 0 <= j < |parts| && parts[i] == floors[i] + 1 && parts[j] == floors[j]
          ==> fractions[j] <= fractions[i])
  }

  /** Whoever got a unit precedes in the queue everyone who did not. */
  ghost predicate InQueueOrder(m: nat, weights: seq<int>, parts: seq<int>)
    requires ValidWeights(weights) && |parts| == |weights|
  {
    ServesQueue(Floors(m, weights), Keys(m, weights), parts)
  }

  ghost predicate ServesQueue(floors: seq<int>, keys: seq<Key>, parts: seq<int>)
    requires |floors| == |keys| == |parts|
  {
    forall i, j :: 0 <= i < |parts| && 0 <= j < |parts| && parts[i] == floors[i] + 1 && parts[j] == floors[j] ==>
      Before(keys, i, j)
  }

  /** The fractional parts add up to exactly the units left over. */
  lemma FractionsTotal(m: nat, weights: seq<int>)
    requires ValidWeights(weights)
    ensures Sum(Fractions(m, weights)) == Sum(weights) * Leftover(m, weights)
  {
    var w, floors, fractions := Sum(weights), Floors(m, weights), Fractions(m, weights);
    forall i | 0 <= i < |weights|
      ensures fractions[i] == m * weights[i] + (-w) * floors[i]
    {
      ExactShare(m, weights, i);
    }
    SumLinear(m, weights, -w, floors, fractions);
    Factor(m, w, Sum(floors));
  }

  lemma Factor(m: int, w: int, f: int)
    ensures m * w + (-w) * f == w * (m - f)
  {
  }

  lemma ExactShare(m: nat, weights: seq<int>, i: nat)
    requires ValidWeights(weights) && i < |weights|
    ensures FractionOf(m, weights, i) == m * weights[i] + (-Sum(weights)) * FloorOf(m, weights, i)
    ensures m * weights[i] == Sum(weights) * FloorOf(m, weights, i) + FractionOf(m, weights, i)
    ensures FractionOf(m, weights, i) < Sum(weights)
  {
    Division(m * weights[i], Sum(weights));
    assert (-Sum(weights)) * FloorOf(m, weights, i) == -(Sum(weights) * FloorOf(m, weights, i));
  }

  lemma Division(n: int, d: int)
    requires 0 < d
    ensures n == d * (n / d) + n % d && 0 <= n % d < d
  {
  }

  /** Fewer units are left over than there are parts, so the remainder loop never wraps. */
  lemma LeftoverBound(m: nat, weights: seq<int>)
    requires ValidWeights(weights)
    ensures 0 <= Leftover(m, weights) < |weights|
  {
    FractionsTotal(m, weights);
    forall i | 0 <= i < |weights| ensures 0 <= Fractions(m, weights)[i] < Sum(weights) {
      ExactShare(m, weights, i);
    }
    SumBelow(Fractions(m, weights), Sum(weights));
    QuotientBound(Sum(weights), Leftover(m, weights), |weights|);
  }

  lemma SumBelow(xs: seq<int>, bound: int)
    requires xs != [] && forall i :: 0 <= i < |xs| ==> 0 <= xs[i] < bound
    ensures 0 <= Sum(xs) < bound * |xs|
  {
    SumBoundsEntries(xs);
    var ceiling := seq(|xs|, i => bound);
    SumConstant(ceiling, bound);
    assert xs[0] < ceiling[0];
    SumOrder(xs, ceiling);
  }

  lemma QuotientBound(w: int, q: int, n: int)
    requires 0 < w && 0 <= w * q < w * n
    ensures 0 <= q < n
  {
    if q < 0 {
      MulOrder(w, q, -1);
    } else if q >= n {
      MulOrder(w, n, q);
    }
  }

  // ---------------------------------------------------------------- computing the split

  ghost predicate InOrder(keys: seq<Key>, order: seq<nat>) {
    && (forall a :: 0 <= a < |order| ==> order[a] < |keys|)
    && (forall a, b :: 0 <= a < b < |order| ==> Before(keys, order[a], order[b]))
  }

  function InsertByKey(keys: seq<Key>, order: seq<nat>, x: nat): (r: seq<nat>)
    requires InOrder(keys, order) && x < |keys| && x !in order
    ensures InOrder(keys, r) && |r| == |order| + 1
    ensures forall k: nat :: k in r <==> k in order || k == x
  {
    if order == [] then [x]
    else if Before(keys, x, order[0]) then
      assert forall k :: k in order ==> k == order[0] || Before(keys, order[0], k);
      [x] + order
    else
      assert order == [order[0]] + order[1..];
      var rest := InsertByKey(keys, order[1..], x);
      assert forall k :: k in rest ==> Before(keys, order[0], k);
      [order[0]] + rest
  }

  /** The indices below `n`, sorted by `Before`. */
  function SortByKey(keys: seq<Key>, n: nat): (r: seq<nat>)
    requires n <= |keys|
    ensures InOrder(keys, r) && |r| == n
    ensures forall k: nat :: k in r <==> k < n
  {
    if n == 0 then [] else InsertByKey(keys, SortByKey(keys, n - 1), n - 1)
  }

  function Bonus(order: seq<nat>, i: nat): int {
    if i in order then 1 else 0
  }

  /** One unit on top of `floors` for each listed index. */
  function Grant(floors: seq<int>, lucky: seq<nat>): (parts: seq<int>)
    ensures |parts| == |floors|
  {
    seq(|floors|, i requires 0 <= i < |floors| => floors[i] + Bonus(lucky, i))
  }

  /** The split of a magnitude: floors, plus one unit for each of the first `Leftover` indices in order. */
  function Apportion(m: nat, weights: seq<int>): (parts: seq<int>)
    requires ValidWeights(weights)
    ensures |parts| == |weights|
  {
    LeftoverBound(m, weights);
    Grant(Floors(m, weights), SortByKey(Keys(m, weights), |weights|)[..Leftover(m, weights)])
  }

  /** Granting one more, as yet ungranted, index adds one unit there and nowhere else. */
  lemma GrantOneMore(floors: seq<int>, order: seq<nat>, keys: seq<Key>, k: nat)
    requires |keys| == |floors| && InOrder(keys, order) && k < |order|
    ensures Grant(floors, order[..k])[order[k]] == floors[order[k]]
    ensures Grant(floors, order[..k + 1]) == Grant(floors, order[..k])[order[k] := floors[order[k]] + 1]
  {
    assert order[..k + 1] == order[..k] + [order[k]];
    assert forall a :: 0 <= a < k ==> Before(keys, order[a], order[k]);
    assert order[k] !in order[..k];
  }

  lemma {:induction false} SumOfGrant(floors: seq<int>, order: seq<nat>, keys: seq<Key>, k: nat)
    requires |keys| == |floors| && InOrder(keys, order) && k <= |order|
    ensures Sum(Grant(floors, order[..k])) == Sum(floors) + k
  {
    if k == 0 {
      assert Grant(floors, order[..0]) == floors;
    } else {
      GrantOneMore(floors, order, keys, k - 1);
      SumOfGrant(floors, order, keys, k - 1);
      SumUpdate(Grant(floors, order[..k - 1]), order[k - 1], floors[order[k - 1]] + 1);
    }
  }

  lemma QueuePrefersFront(order: seq<nat>, keys: seq<Key>, k: nat, i: nat, j: nat)
    requires InOrder(keys, order) && k <= |order|
    requires i < |keys| && j < |keys| && i in order[..k] && j in order && j !in order[..k]
    ensures Before(keys, i, j)
  {
    var a :| 0 <= a < k && order[a] == i;
    var b :| 0 <= b < |order| && order[b] == j;
    forall c | 0 <= c < k ensures order[c] in order[..k] {
      assert order[..k][c] == order[c];
    }
  }

  /** With a unit for each of the first `k` in the queue, whoever got one precedes everyone who did not. */
  lemma QueueIsServedInOrder(floors: seq<int>, keys: seq<Key>, order: seq<nat>, k: nat)
    requires |floors| == |keys| && InOrder(keys, order) && k <= |order|
    requires forall i: nat :: i < |keys| ==> i in order
    ensures var parts := Grant(floors, order[..k]);
            ServesQueue(floors, keys, parts) && forall i :: 0 <= i < |parts| ==> parts[i] == floors[i] || parts[i] == floors[i] + 1
  {
    var parts := Grant(floors, order[..k]);
    forall i, j | 0 <= i < |parts| && 0 <= j < |parts| && parts[i] == floors[i] + 1 && parts[j] == floors[j]
      ensures Before(keys, i, j)
    {
      assert i in order[..k] && j !in order[..k];
      QueuePrefersFront(order, keys, k, i, j);
    }
  }

  /** The queue goes by fractions first. */
  lemma QueueServesFractions(floors: seq<int>, fractions: seq<int>, keys: seq<Key>, parts: seq<int>)
    requires |floors| == |fractions| == |keys| == |parts| && ServesQueue(floors, keys, parts)
    requires forall i :: 0 <= i < |parts| ==> keys[i].fraction == fractions[i] && (parts[i] == floors[i] || parts[i] == floors[i] + 1)
    ensures ServesLargestFractions(floors, fractions, parts)
  {
  }

  lemma ApportionIsLargestRemainder(m: nat, weights: seq<int>)
    requires ValidWeights(weights)
    ensures LargestRemainder(m, weights, Apportion(m, weights))
    ensures InQueueOrder(m, weights, Apportion(m, weights))
  {
    LeftoverBound(m, weights);
    var floors, keys, left := Floors(m, weights), Keys(m, weights), Leftover(m, weights);
    var order := SortByKey(keys, |weights|);
    SumOfGrant(floors, order, keys, left);
    QueueIsServedInOrder(floors, keys, order, left);
    QueueServesFractions(floors, Fractions(m, weights), keys, Grant(floors, order[..left]));
  }

  /** The queue leaves no choice: two splits that obey the rule and serve in queue order are the same. */
  lemma LargestRemainderUnique(m: nat, weights: seq<int>, p: seq<int>, q: seq<int>)
    requires ValidWeights(weights)
    requires LargestRemainder(m, weights, p) && InQueueOrder(m, weights, p)
    requires LargestRemainder(m, weights, q) && InQueueOrder(m, weights, q)
    ensures p == q
  {
    if p != q {
      var i, j := WhereTheyDiffer(p, q);
      TradedUnits(Floors(m, weights), Fractions(m, weights), p, q, i, j);
      TradedUnits(Floors(m, weights), Fractions(m, weights), q, p, j, i);
      QueueIsStrict(Floors(m, weights), Keys(m, weights), p, q, i, j);
    }
  }

  lemma QueueIsStrict(floors: seq<int>, keys: seq<Key>, p: seq<int>, q: seq<int>, i: nat, j: nat)
    requires |floors| == |keys| == |p| == |q| && i < |p| && j < |p|
    requires p[i] == floors[i] + 1 && p[j] == floors[j] && q[i] == floors[i] && q[j] == floors[j] + 1
    ensures !(ServesQueue(floors, keys, p) && ServesQueue(floors, keys, q))
  {
  }

  /** Two different splits of the same total: somebody has more in one, and somebody else in the other. */
  lemma WhereTheyDiffer(p: seq<int>, q: seq<int>) returns (i: nat, j: nat)
    requires |p| == |q| && Sum(p) == Sum(q) && p != q
    ensures i < |p| && j < |p| && q[i] < p[i] && p[j] < q[j]
  {
    if forall k :: 0 <= k < |p| ==> q[k] <= p[k] {
      SumOrder(q, p);
    }
    if forall k :: 0 <= k < |p| ==> p[k] <= q[k] {
      SumOrder(p, q);
    }
    i :| 0 <= i < |p| && q[i] < p[i];
    j :| 0 <= j < |p| && p[j] < q[j];
  }

  /** Positions served differently by two splits that obey the rule have the same fraction. */
  lemma TradedUnits(floors: seq<int>, fractions: seq<int>, p: seq<int>, q: seq<int>, i: nat, j: nat)
    requires |floors| == |fractions| == |p| == |q| && i < |p| && j < |p| && q[i] < p[i] && p[j] < q[j]
    requires ServesLargestFractions(floors, fractions, p) && ServesLargestFractions(floors, fractions, q)
    ensures Tied(floors, fractions, p, i, j)
  {
    assert q[j] == floors[j] + 1 && q[i] == floors[i];
  }

  /** The fraction of somebody served is also the fraction of somebody who is not. */
  predicate TiedAtCut(m: nat, weights: seq<int>)
    requires ValidWeights(weights)
  {
    exists i, j :: 0 <= i < |weights| && 0 <= j < |weights|
      && Tied(Floors(m, weights), Fractions(m, weights), Apportion(m, weights), i, j)
  }

  predicate Tied(floors: seq<int>, fractions: seq<int>, parts: seq<int>, i: nat, j: nat)
    requires |floors| == |fractions| == |parts| && i < |parts| && j < |parts|
  {
    parts[i] == floors[i] + 1 && parts[j] == floors[j] && fractions[i] == fractions[j]
  }

  /**
   When the order among equal fractions matters: every split that obeys the rule is the computed one,
   if and only if no fraction is shared by somebody who was served and somebody who was not.
   */
  lemma TieBreakMattersIffTied(m: nat, weights: seq<int>)
    requires ValidWeights(weights)
    ensures (forall parts :: LargestRemainder(m, weights, parts) ==> parts == Apportion(m, weights)) <==> !TiedAtCut(m, weights)
  {
    var chosen, floors, fractions := Apportion(m, weights), Floors(m, weights), Fractions(m, weights);
    ApportionIsLargestRemainder(m, weights);
    if TiedAtCut(m, weights) {
      var i, j :| 0 <= i < |weights| && 0 <= j < |weights| && Tied(floors, fractions, chosen, i, j);
      var other := TradeUnit(floors, fractions, chosen, i, j);
      assert LargestRemainder(m, weights, other);
    } else {
      forall parts | LargestRemainder(m, weights, parts) ensures parts == chosen {
        if parts != chosen {
          var i, j := WhereTheyDiffer(chosen, parts);
          TradedUnits(floors, fractions, chosen, parts, i, j);
        }
      }
    }
  }

  /** A split by the rule without such a tie is the computed one. */
  lemma UntiedIsComputed(m: nat, weights: seq<int>, parts: seq<int>)
    requires ValidWeights(weights) && LargestRemainder(m, weights, parts)
    requires forall i, j :: 0 <= i < |parts| && 0 <= j < |parts| ==> !Tied(Floors(m, weights), Fractions(m, weights), parts, i, j)
    ensures Apportion(m, weights) == parts
  {
    ApportionIsLargestRemainder(m, weights);
    if parts != Apportion(m, weights) {
      var i, j := WhereTheyDiffer(parts, Apportion(m, weights));
      TradedUnits(Floors(m, weights), Fractions(m, weights), parts, Apportion(m, weights), i, j);
    }
  }

  /** A unit moved between equal fractions gives another split that obeys the rule. */
  lemma TradeUnit(floors: seq<int>, fractions: seq<int>, parts: seq<int>, i: nat, j: nat) returns (other: seq<int>)
    requires |floors| == |fractions| == |parts| && ServesLargestFractions(floors, fractions, parts)
    requires i < |parts| && j < |parts| && Tied(floors, fractions, parts, i, j)
    ensures |other| == |parts| && other != parts && Sum(other) == Sum(parts)
    ensures ServesLargestFractions(floors, fractions, other)
  {
    var fewer := parts[i := parts[i] - 1];
    SumUpdate(parts, i, parts[i] - 1);
    SumUpdate(fewer, j, parts[j] + 1);
    other := fewer[j := parts[j] + 1];
    assert other[j] != parts[j];
  }

  lemma TwoUnitsTied(weights: seq<int>)
    requires weights == [6667, 1667, 1666]
    ensures ValidWeights(weights) && Floors(2, weights) == [1, 0, 0] && Fractions(2, weights) == [3334, 3334, 3332]
  {
    SumOfThree(6667, 1667, 1666);
  }

  lemma ObeysRule(m: nat, weights: seq<int>, floors: seq<int>, fractions: seq<int>, parts: seq<int>)
    requires ValidWeights(weights) && Floors(m, weights) == floors && Fractions(m, weights) == fractions
    requires |parts| == |weights| && Sum(parts) == m && ServesLargestFractions(floors, fractions, parts)
    ensures LargestRemainder(m, weights, parts)
  {
  }

  /** Such ties occur: of two units over these weights, the second may go to the first or to the second position. */
  lemma TwoRightSplits(weights: seq<int>)
    requires weights == [6667, 1667, 1666]
    ensures ValidWeights(weights)
    ensures LargestRemainder(2, weights, [2, 0, 0]) && LargestRemainder(2, weights, [1, 1, 0])
  {
    TwoUnitsTied(weights);
    SumOfThree(2, 0, 0);
    SumOfThree(1, 1, 0);
    ObeysRule(2, weights, [1, 0, 0], [3334, 3334, 3332], [2, 0, 0]);
    ObeysRule(2, weights, [1, 0, 0], [3334, 3334, 3332], [1, 1, 0]);
  }

  lemma SumOfThree(x: int, y: int, z: int)
    ensures Sum([x, y, z]) == x + y + z
  {
    assert Sum([x]) == x;
    assert [x, y][..1] == [x];
    assert [x, y, z][..2] == [x, y];
  }

  // ---------------------------------------------------------------- allocateMoney

  function Abs(x: int): nat { if x < 0 then -x else x }

  /** `allocateMoney`'s result when the weights are usable: the magnitude is split, then the sign restored. */
  function Allocate(total: int, weights: seq<int>): (parts: seq<int>)
    requires ValidWeights(weights)
    ensures |parts| == |weights|
  {
    Signed(total, Apportion(Abs(total), weights))
  }

  function Signed(total: int, magnitudes: seq<int>): (parts: seq<int>)
    ensures |parts| == |magnitudes|
  {
    seq(|magnitudes|, i requires 0 <= i < |magnitudes| => if total < 0 then -magnitudes[i] else magnitudes[i])
  }

  function WeightError(weights: seq<int>): Option<MoneyError> {
    if |weights| == 0 then Some(NoWeights)
    else if exists i :: 0 <= i < |weights| && weights[i] < 0 then Some(NegativeWeight)
    else if Sum(weights) <= 0 then Some(ZeroTotalWeight)
    else None
  }

  /** The first of these complaints that applies. */
  lemma WeightErrorMeaning(weights: seq<int>)
    ensures WeightError(weights) == Some(NoWeights) <==> |weights| == 0
    ensures WeightError(weights) == Some(NegativeWeight) <==> exists i :: 0 <= i < |weights| && weights[i] < 0
    ensures WeightError(weights) == Some(ZeroTotalWeight) <==> weights != [] && forall i :: 0 <= i < |weights| ==> weights[i] == 0
    ensures WeightError(weights) == None <==>
              (forall i :: 0 <= i < |weights| ==> 0 <= weights[i]) && exists i :: 0 <= i < |weights| && 0 < weights[i]
  {
    if forall i :: 0 <= i < |weights| ==> 0 <= weights[i] {
      SumBoundsEntries(weights);
      if forall i :: 0 <= i < |weights| ==> weights[i] == 0 {
        SumConstant(weights, 0);
      }
    }
  }

  method AllocateMoney(total: int, weights: seq<int>) returns (r: Result<seq<int>, MoneyError>)
    ensures r.Ok? <==> weights != [] && ValidWeights(weights)
    ensures r.Ok? ==> r.value == Allocate(total, weights)
    ensures r.Err? ==> WeightError(weights) == Some(r.error)
  {
    if |weights| == 0 {
      return Err(NoWeights);
    }
    if exists i :: 0 <= i < |weights| && weights[i] < 0 {
      return Err(NegativeWeight);
    }
    var totalWeight := Sum(weights);
    if totalWeight <= 0 {
      return Err(ZeroTotalWeight);
    }
    var magnitude := Abs(total);
    var floors, keys := Floors(magnitude, weights), Keys(magnitude, weights);
    LeftoverBound(magnitude, weights);
    var order := SortByKey(keys, |weights|);
    var parts := HandOutRemainder(floors, keys, order, magnitude - Sum(floors));
    return Ok(Signed(total, parts));
  }

  /** The loop that hands out the left-over units one by one; it never comes back to the front of the queue. */
  method HandOutRemainder(floors: seq<int>, ghost keys: seq<Key>, order: seq<nat>, left: nat)
    returns (result: seq<int>)
    requires |keys| == |floors| && InOrder(keys, order) && left < |order|
    ensures result == Grant(floors, order[..left])
  {
    result := floors;
    var remainder, i := left, 0;
    while remainder > 0
      invariant 0 <= i <= left && remainder == left - i
      invariant result == Grant(floors, order[..i])
    {
      GrantOneMore(floors, order, keys, i);
      SmallModulo(i, |order|);
      var target := order[i % |order|];
      result := result[target := result[target] + 1];
      i, remainder := i + 1, remainder - 1;
    }
  }

  lemma SmallModulo(i: nat, n: nat)
    requires i < n
    ensures i % n == i
  {
  }

  /** No minor unit is lost or invented, whatever the sign, and a negated total negates every part. */
  lemma AllocateConserves(total: int, weights: seq<int>)
    requires ValidWeights(weights)
    ensures Sum(Allocate(total, weights)) == total
    ensures forall i :: 0 <= i < |weights| ==> Allocate(-total, weights)[i] == -Allocate(total, weights)[i]
  {
    PartsWithinTotal(Abs(total), weights);
    SignedSum(total, Apportion(Abs(total), weights));
  }

  lemma SignedSum(total: int, magnitudes: seq<int>)
    ensures Sum(Signed(total, magnitudes)) == if total < 0 then -Sum(magnitudes) else Sum(magnitudes)
  {
    SumLinear(if total < 0 then -1 else 1, magnitudes, 0, magnitudes, Signed(total, magnitudes));
  }

  lemma PartsWithinTotal(m: nat, weights: seq<int>)
    requires ValidWeights(weights)
    ensures Sum(Apportion(m, weights)) == m
    ensures forall i :: 0 <= i < |weights| ==> 0 <= Apportion(m, weights)[i] <= m
  {
    ApportionIsLargestRemainder(m, weights);
    var floors := Floors(m, weights);
    SumBoundsEntries(Apportion(m, weights));
  }
}
