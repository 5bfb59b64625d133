/**
 What the largest-remainder split of `packages/domain/src/money.ts` guarantees its callers: each part
 is within one unit of its exact share, larger weights never get less, and no other integer split
 strays less from the exact shares in total. All of it holds of any split that obeys the rule, whoever
 comes first among equal fractions.
 */
module Apportionment {
  import opened Sequences
  import opened Money

  /** Nobody whose exact share is whole receives a left-over unit. */
  lemma NoUnitForWholeShare(m: nat, weights: seq<int>, parts: seq<int>, i: nat)
    requires ValidWeights(weights) && i < |weights|
    requires LargestRemainder(m, weights, parts)
    requires Fractions(m, weights)[i] == 0
    ensures parts[i] == Floors(m, weights)[i]
  {
    var w, floors, fractions := Sum(weights), Floors(m, weights), Fractions(m, weights);
    FractionsTotal(m, weights);
    assert forall k :: 0 <= k < |weights| ==> fractions[k] < w by {
      forall k | 0 <= k < |weights| ensures fractions[k] < w { ExactShare(m, weights, k); }
    }
    if parts[i] != floors[i] {
      assert forall k :: 0 <= k < |weights| && parts[k] == floors[k] ==> fractions[k] <= fractions[i];
      var units := seq(|parts|, k requires 0 <= k < |parts| => parts[k] - floors[k]);
      SumLinear(1, parts, -1, floors, units);
      assert units[i] == 1;
      UnitsCoverFractions(w, fractions, units);
      assert false;
    }
  }

  /** Units worth `w` each, granted wherever there is a fraction, outweigh the fractions. */
  lemma {:induction false} UnitsCoverFractions(w: int, fractions: seq<int>, units: seq<int>)
    requires 0 < w && |fractions| == |units|
    requires forall k :: 0 <= k < |units| ==>
               (units[k] == 0 && fractions[k] == 0) || (units[k] == 1 && 0 <= fractions[k] < w)
    ensures Sum(fractions) <= w * Sum(units)
    ensures (exists k :: 0 <= k < |units| && units[k] == 1) ==> Sum(fractions) < w * Sum(units)
  {
    if units != [] {
      var last := |units| - 1;
      UnitsCoverFractions(w, fractions[..last], units[..last]);
      Distribute(w, Sum(units[..last]), units[last]);
      if k :| 0 <= k < last && units[k] == 1 {
        assert units[..last][k] == 1;
      }
    }
  }

  /**
   Every part lies strictly within one unit of its exact share `m * weights[i] / Sum(weights)`: it is
   that share rounded down or up, and the share itself whenever the share is whole.
   */
  lemma WithinOneUnit(m: nat, weights: seq<int>, parts: seq<int>, i: nat)
    requires ValidWeights(weights) && i < |weights| && LargestRemainder(m, weights, parts)
    ensures NearShare(Sum(weights), m * weights[i], parts[i])
  {
    ExactShare(m, weights, i);
    if Fractions(m, weights)[i] == 0 {
      NoUnitForWholeShare(m, weights, parts, i);
    }
    UnitArithmetic(Sum(weights), FloorOf(m, weights, i), parts[i]);
  }

  lemma UnitArithmetic(w: int, floor: int, part: int)
    requires part == floor || part == floor + 1
    ensures w * part == w * floor || w * part == w * floor + w
    ensures part == floor ==> w * part == w * floor
  {
    assert w * (floor + 1) == w * floor + w;
  }

  lemma ApportionWithinOneUnit(m: nat, weights: seq<int>, i: nat)
    requires ValidWeights(weights) && i < |weights|
    ensures NearShare(Sum(weights), m * weights[i], Apportion(m, weights)[i])
  {
    ApportionIsLargestRemainder(m, weights);
    WithinOneUnit(m, weights, Apportion(m, weights), i);
  }

  /** `w` times the part is less than `w` away from `exact`. */
  predicate NearShare(w: int, exact: int, part: int) {
    exact - w < w * part < exact + w
  }

  lemma NearWithSign(w: int, total: int, weight: int, part: int)
    requires NearShare(w, Abs(total) * weight, part)
    ensures NearShare(w, total * weight, if total < 0 then -part else part)
  {
    assert w * -part == -(w * part);
    assert -total * weight == -(total * weight);
  }

  lemma SignedWithinOneUnit(total: int, weights: seq<int>, magnitudes: seq<int>, i: nat)
    requires i < |weights| == |magnitudes| && NearShare(Sum(weights), Abs(total) * weights[i], magnitudes[i])
    ensures NearShare(Sum(weights), total * weights[i], Signed(total, magnitudes)[i])
  {
    NearWithSign(Sum(weights), total, weights[i], magnitudes[i]);
  }

  /** The same bound for signed totals. */
  lemma AllocateWithinOneUnit(total: int, weights: seq<int>, i: nat)
    requires ValidWeights(weights) && i < |weights|
    ensures NearShare(Sum(weights), total * weights[i], Allocate(total, weights)[i])
  {
    ApportionWithinOneUnit(Abs(total), weights, i);
    SignedWithinOneUnit(total, weights, Apportion(Abs(total), weights), i);
  }

  /** A larger weight never receives less. */
  lemma LargerWeightNoLess(m: nat, weights: seq<int>, parts: seq<int>, i: nat, j: nat)
    requires ValidWeights(weights) && i < |weights| && j < |weights| && weights[j] < weights[i]
    requires LargestRemainder(m, weights, parts)
    ensures parts[j] <= parts[i]
  {
    ExactShare(m, weights, i);
    ExactShare(m, weights, j);
    ShareOrder(m, Sum(weights), weights[i], weights[j], FloorOf(m, weights, i), FloorOf(m, weights, j),
               FractionOf(m, weights, i), FractionOf(m, weights, j));
    var floors, fractions := Floors(m, weights), Fractions(m, weights);
    assert floors[j] <= floors[i] && (floors[j] == floors[i] ==> fractions[j] <= fractions[i]);
    if parts[i] < parts[j] {
      assert parts[j] == floors[j] + 1 && parts[i] == floors[i] && floors[j] == floors[i];
      NothingToSplit(m, weights, parts, j);
    }
  }

  /** Where there is nothing to split, nobody has a fraction and nobody gets a unit. */
  lemma NothingToSplit(m: nat, weights: seq<int>, parts: seq<int>, i: nat)
    requires ValidWeights(weights) && i < |weights| && LargestRemainder(m, weights, parts)
    ensures m == 0 ==> parts[i] == FloorOf(m, weights, i)
  {
    if m == 0 {
      NoUnitForWholeShare(m, weights, parts, i);
    }
  }

  /** Equal weights differ by at most one unit, and in the queue the earlier of them comes first. */
  lemma EqualWeights(m: nat, weights: seq<int>, parts: seq<int>, i: nat, j: nat)
    requires ValidWeights(weights) && i < j < |weights| && weights[j] == weights[i]
    requires LargestRemainder(m, weights, parts)
    ensures -1 <= parts[i] - parts[j] <= 1
    ensures Apportion(m, weights)[j] <= Apportion(m, weights)[i]
  {
    var floors, keys, computed := Floors(m, weights), Keys(m, weights), Apportion(m, weights);
    assert floors[i] == floors[j] && keys[i] == keys[j];
    ApportionIsLargestRemainder(m, weights);
    assert !Before(keys, j, i);
  }

  /** Of two exact shares, the one with the larger weight has the larger whole part, or else the larger fraction. */
  lemma ShareOrder(m: nat, w: int, wi: int, wj: int, fi: int, fj: int, ri: int, rj: int)
    requires 0 < w && wj <= wi && 0 <= ri < w && 0 <= rj < w
    requires m * wi == w * fi + ri && m * wj == w * fj + rj
    ensures fj <= fi
    ensures fi == fj ==> rj <= ri
    ensures fi == fj && ri == rj && m != 0 ==> wi == wj
  {
    MulOrder(m, wj, wi);
    Distribute(w, fi, 1);
    if fi < fj {
      MulOrder(w, fi + 1, fj);
    }
    if fi == fj && ri == rj && m != 0 {
      MulCancel(m, wi, wj);
    }
  }

  lemma MulCancel(c: int, x: int, y: int)
    requires c != 0 && c * x == c * y
    ensures x == y
  {
    assert c * (x - y) == 0;
  }

  // ---------------------------------------------------------------- who gets a unit

  /** The positions that come before `i` in the queue. */
  function Ahead(keys: seq<Key>, i: nat): set<nat>
    requires i < |keys|
  {
    set j: nat | j < |keys| && Before(keys, j, i)
  }

  /** Fewer positions come before this one than there are units left over. */
  predicate Served(m: nat, weights: seq<int>, i: nat)
    requires ValidWeights(weights) && i < |weights|
  {
    |Ahead(Keys(m, weights), i)| < Leftover(m, weights)
  }

  lemma {:induction false} DistinctCount(order: seq<nat>, s: set<nat>)
    requires forall a, b :: 0 <= a < b < |order| ==> order[a] != order[b]
    requires forall k: nat :: k in s <==> k in order
    ensures |s| == |order|
  {
    if order == [] {
      assert s == {};
    } else {
      var last := |order| - 1;
      assert order == order[..last] + [order[last]];
      DistinctCount(order[..last], s - {order[last]});
    }
  }

  /** What stands before a position of the sorted queue is what comes before it. */
  lemma QueuePosition(keys: seq<Key>, order: seq<nat>, a: nat)
    requires InOrder(keys, order) && a < |order| && forall k: nat :: k in order <==> k < |keys|
    ensures |Ahead(keys, order[a])| == a
  {
    forall k: nat ensures k in Ahead(keys, order[a]) <==> k in order[..a] {
      if k in Ahead(keys, order[a]) {
        assert k in order;
        var b :| 0 <= b < |order| && order[b] == k;
        assert b < a;
        assert order[..a][b] == k;
      }
      if k in order[..a] {
        var b :| 0 <= b < a && order[b] == k;
      }
    }
    DistinctCount(order[..a], Ahead(keys, order[a]));
  }

  lemma InFront(keys: seq<Key>, order: seq<nat>, a: nat, k: nat)
    requires InOrder(keys, order) && a < |order| && k <= |order|
    ensures order[a] in order[..k] <==> a < k
  {
    if order[a] in order[..k] {
      var b :| 0 <= b < k && order[b] == order[a];
      assert a < b ==> Before(keys, order[a], order[b]);
      assert b < a ==> Before(keys, order[b], order[a]);
    }
    if a < k {
      assert order[..k][a] == order[a];
    }
  }

  /** A part gets a unit exactly if fewer positions come before it than there are units left over. */
  lemma RaisedIffServed(m: nat, weights: seq<int>, i: nat)
    requires ValidWeights(weights) && i < |weights|
    ensures Apportion(m, weights)[i] == FloorOf(m, weights, i) + if Served(m, weights, i) then 1 else 0
  {
    LeftoverBound(m, weights);
    var keys, left := Keys(m, weights), Leftover(m, weights);
    var order := SortByKey(keys, |weights|);
    assert i in order;
    var a :| 0 <= a < |order| && order[a] == i;
    QueuePosition(keys, order, a);
    InFront(keys, order, a, left);
  }

  // ---------------------------------------------------------------- optimality

  /** `Sum(weights)` times the total absolute distance from the exact shares. */
  function Deviations(m: int, weights: seq<int>, parts: seq<int>): seq<int>
    requires |parts| == |weights|
  {
    seq(|parts|, i requires 0 <= i < |parts| => Deviation(Sum(weights), m * weights[i], parts[i]))
  }

  function Deviation(w: int, exact: int, part: int): int {
    Abs(w * part - exact)
  }

  /** The i-th deviation is the absolute difference between Sum(weights) parts and m weights. */
  lemma DeviationMeaning(m: int, weights: seq<int>, parts: seq<int>, i: nat)
    requires |parts| == |weights| && i < |parts|
    ensures var gap := Sum(weights) * parts[i] - m * weights[i];
            |Deviations(m, weights, parts)| == |parts| && Deviations(m, weights, parts)[i] == (if gap < 0 then -gap else gap)
  {
  }

  ghost predicate Separates(t: int, floor: int, fraction: int, part: int) {
    (part == floor && fraction <= t) || (part == floor + 1 && t <= fraction)
  }

  /** A cut-off that separates the fractions that earned a unit from those that did not. */
  lemma CutOff(m: nat, weights: seq<int>, parts: seq<int>) returns (t: int)
    requires ValidWeights(weights) && LargestRemainder(m, weights, parts)
    ensures 0 <= t <= Sum(weights)
    ensures forall k :: 0 <= k < |weights| ==> Separates(t, FloorOf(m, weights, k), FractionOf(m, weights, k), parts[k])
  {
    var floors, fractions := Floors(m, weights), Fractions(m, weights);
    forall k | 0 <= k < |weights| ensures 0 <= fractions[k] < Sum(weights) { ExactShare(m, weights, k); }
    t := Sum(weights);
    var i := 0;
    while i < |parts|
      invariant 0 <= i <= |parts| && 0 <= t <= Sum(weights)
      invariant t == Sum(weights) || exists e :: 0 <= e < |parts| && parts[e] == floors[e] + 1 && fractions[e] == t
      invariant forall k :: 0 <= k < i && parts[k] == floors[k] + 1 ==> t <= fractions[k]
    {
      if parts[i] == floors[i] + 1 && fractions[i] < t {
        t := fractions[i];
      }
      i := i + 1;
    }
    forall k | 0 <= k < |weights| ensures Separates(t, floors[k], fractions[k], parts[k]) {
    }
  }

  /** At `x`, the line of the given slope through (part, deviation) lies on or below `bound`. */
  ghost predicate LineBelow(deviation: int, slope: int, part: int, x: int, bound: int) {
    deviation + slope * (x - part) <= bound
  }

  /** The deviation is convex in the part: a tangent at the chosen part, of slope `w - 2t`, lies below it. */
  lemma Tangent(w: int, exact: int, floor: int, r: int, t: int, part: int, x: int)
    requires 0 <= r < w && 0 <= t <= w && exact == w * floor + r
    requires Separates(t, floor, r, part)
    ensures LineBelow(Deviation(w, exact, part), w - 2 * t, part, x, Deviation(w, exact, x))
  {
    var d := x - floor;
    assert w * x - exact == w * d - r by { assert w * (x - floor) == w * x - w * floor; }
    assert (w - 2 * t) * d == w * d - 2 * (t * d) by { assert (2 * t) * d == 2 * (t * d); }
    assert (w - t) * d == w * d - t * d;
    if d >= 1 { MulOrder(t, 1, d); } else { MulOrder(w - t, d, 0); }
    if part == floor + 1 {
      assert w * part - exact == w - r by { assert w * (floor + 1) == w * floor + w; }
      assert (w - 2 * t) * (d - 1) == (w - 2 * t) * d - (w - 2 * t);
    }
  }

  /**
   Largest remainder is optimal: among all integer splits with the same total, none has a smaller
   total absolute deviation from the exact shares.
   */
  lemma LargestRemainderIsOptimal(m: nat, weights: seq<int>, parts: seq<int>, other: seq<int>)
    requires ValidWeights(weights) && LargestRemainder(m, weights, parts)
    requires |other| == |weights| && Sum(other) == m
    ensures Sum(Deviations(m, weights, parts)) <= Sum(Deviations(m, weights, other))
  {
    var w := Sum(weights);
    var t := CutOff(m, weights, parts);
    var xs, ys := Deviations(m, weights, parts), Deviations(m, weights, other);
    forall i | 0 <= i < |parts| ensures LineBelow(xs[i], w - 2 * t, parts[i], other[i], ys[i]) {
      ExactShare(m, weights, i);
      Tangent(w, m * weights[i], FloorOf(m, weights, i), FractionOf(m, weights, i), t, parts[i], other[i]);
    }
    SumTangents(xs, w - 2 * t, parts, other, ys);
  }

  lemma {:induction false} SumTangents(xs: seq<int>, slope: int, parts: seq<int>, other: seq<int>, ys: seq<int>)
    requires |xs| == |parts| == |other| == |ys|
    requires forall i :: 0 <= i < |xs| ==> LineBelow(xs[i], slope, parts[i], other[i], ys[i])
    ensures LineBelow(Sum(xs), slope, Sum(parts), Sum(other), Sum(ys))
  {
    if xs != [] {
      var last := |xs| - 1;
      SumTangents(xs[..last], slope, parts[..last], other[..last], ys[..last]);
      assert LineBelow(xs[last], slope, parts[last], other[last], ys[last]);
      Distribute(slope, Sum(other[..last]) - Sum(parts[..last]), other[last] - parts[last]);
    }
  }

  lemma Distribute(c: int, x: int, y: int)
    ensures c * (x + y) == c * x + c * y
  {
  }
}
