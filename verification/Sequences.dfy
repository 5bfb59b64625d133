/** Sums over sequences of integers, with the few laws the other modules reason by. */
module Sequences {

  function Sum(xs: seq<int>): int {
    if |xs| == 0 then 0 else Sum(xs[..|xs| - 1]) + xs[|xs| - 1]
  }

  lemma {:induction false} SumAppend(xs: seq<int>, ys: seq<int>)
    ensures Sum(xs + ys) == Sum(xs) + Sum(ys)
  {
    if ys == [] {
      assert xs + ys == xs;
    } else {
      assert (xs + ys)[..|xs + ys| - 1] == xs + ys[..|ys| - 1];
      SumAppend(xs, ys[..|ys| - 1]);
    }
  }

  lemma {:induction false} SumUpdate(xs: seq<int>, i: nat, v: int)
    requires i < |xs|
    ensures Sum(xs[i := v]) == Sum(xs) - xs[i] + v
  {
    var last := |xs| - 1;
    if i == last {
      assert xs[i := v][..last] == xs[..last];
    } else {
      assert xs[i := v][..last] == xs[..last][i := v];
      SumUpdate(xs[..last], i, v);
    }
  }

  lemma {:induction false} SumRemove(xs: seq<int>, i: nat)
    requires i < |xs|
    ensures Sum(xs[..i] + xs[i + 1..]) == Sum(xs) - xs[i]
  {
    var last := |xs| - 1;
    if i == last {
      assert xs[..i] + xs[i + 1..] == xs[..last];
    } else {
      assert (xs[..i] + xs[i + 1..])[..last - 1] == xs[..last][..i] + xs[..last][i + 1..];
      SumRemove(xs[..last], i);
    }
  }

  /** Pointwise order carries over to sums, strictly so when some entry is strictly smaller. */
  lemma {:induction false} SumOrder(xs: seq<int>, ys: seq<int>)
    requires |xs| == |ys|
    requires forall i :: 0 <= i < |xs| ==> xs[i] <= ys[i]
    ensures Sum(xs) <= Sum(ys)
    ensures (exists i :: 0 <= i < |xs| && xs[i] < ys[i]) ==> Sum(xs) < Sum(ys)
  {
    if xs != [] {
      var last := |xs| - 1;
      SumOrder(xs[..last], ys[..last]);
      if i :| 0 <= i < |xs| && xs[i] < ys[i] {
        if i < last {
          assert xs[..last][i] < ys[..last][i];
        }
      }
    }
  }

  /** If every entry of `zs` is a fixed linear combination of the entries of `xs` and `ys`, so is its sum. */
  lemma {:induction false} SumLinear(a: int, xs: seq<int>, b: int, ys: seq<int>, zs: seq<int>)
    requires |xs| == |ys| == |zs|
    requires forall i :: 0 <= i < |zs| ==> zs[i] == a * xs[i] + b * ys[i]
    ensures Sum(zs) == a * Sum(xs) + b * Sum(ys)
  {
    if zs != [] {
      var last := |zs| - 1;
      SumLinear(a, xs[..last], b, ys[..last], zs[..last]);
      calc {
        Sum(zs);
        a * Sum(xs[..last]) + b * Sum(ys[..last]) + (a * xs[last] + b * ys[last]);
        a * (Sum(xs[..last]) + xs[last]) + b * (Sum(ys[..last]) + ys[last]);
      }
    }
  }

  lemma {:induction false} SumConstant(xs: seq<int>, c: int)
    requires forall i :: 0 <= i < |xs| ==> xs[i] == c
    ensures Sum(xs) == |xs| * c
  {
    if xs != [] {
      SumConstant(xs[..|xs| - 1], c);
      assert (|xs| - 1) * c + c == |xs| * c;
    }
  }

  /** A sum of non-negative entries is non-negative and bounds each of them. */
  lemma {:induction false} SumBoundsEntries(xs: seq<int>)
    requires forall i :: 0 <= i < |xs| ==> 0 <= xs[i]
    ensures 0 <= Sum(xs)
    ensures forall i :: 0 <= i < |xs| ==> xs[i] <= Sum(xs)
  {
    if xs != [] {
      SumBoundsEntries(xs[..|xs| - 1]);
      forall i | 0 <= i < |xs| - 1 ensures xs[i] <= Sum(xs[..|xs| - 1]) {
        assert xs[i] == xs[..|xs| - 1][i];
      }
    }
  }

  /** A sum does not depend on the order of its terms. */
  lemma {:induction false} SumPermutation(xs: seq<int>, ys: seq<int>)
    requires multiset(xs) == multiset(ys)
    ensures Sum(xs) == Sum(ys)
  {
    if xs == [] {
      assert |multiset(ys)| == 0;
    } else {
      var last := |xs| - 1;
      assert xs == xs[..last] + [xs[last]];
      assert xs[last] in multiset(ys);
      var i :| 0 <= i < |ys| && ys[i] == xs[last];
      assert ys == ys[..i] + [ys[i]] + ys[i + 1..];
      assert multiset(ys[..i] + ys[i + 1..]) == multiset(ys) - multiset{ys[i]};
      assert multiset(xs[..last]) == multiset(xs) - multiset{xs[last]};
      SumPermutation(xs[..last], ys[..i] + ys[i + 1..]);
      SumRemove(ys, i);
    }
  }

  /** Where each step from a good state ends well unless it is a breaking one, all states are good exactly if no step breaks. */
  lemma NeverBroken(good: seq<bool>, breaks: seq<bool>)
    requires |good| == |breaks| + 1 && good[0]
    requires forall t :: 0 <= t < |breaks| && good[t] ==> (good[t + 1] <==> !breaks[t])
    ensures (forall t :: 0 <= t < |good| ==> good[t]) <==> (forall t :: 0 <= t < |breaks| ==> !breaks[t])
  {
    if forall t :: 0 <= t < |good| ==> good[t] {
      forall t | 0 <= t < |breaks| ensures !breaks[t] {
        assert good[t] && good[t + 1];
      }
    }
    if forall t :: 0 <= t < |breaks| ==> !breaks[t] {
      for n := 0 to |breaks|
        invariant forall t :: 0 <= t <= n ==> good[t]
      {
        assert !breaks[n];
      }
    }
  }

  /** Where a state is good exactly if the one before was and the step did not break it, the last is good exactly if no step did. */
  lemma BrokenForGood(good: seq<bool>, breaks: seq<bool>)
    requires |good| == |breaks| + 1 && good[0]
    requires forall t :: 0 <= t < |breaks| ==> (good[t + 1] <==> good[t] && !breaks[t])
    ensures good[|breaks|] <==> forall t :: 0 <= t < |breaks| ==> !breaks[t]
  {
    for n := 0 to |breaks|
      invariant good[n] <==> forall t :: 0 <= t < n ==> !breaks[t]
    {
      assert good[n + 1] <==> good[n] && !breaks[n];
    }
  }

  /** A sum of zeros and ones counts the ones. */
  lemma {:induction false} SumCounts(xs: seq<int>)
    requires forall i :: 0 <= i < |xs| ==> xs[i] == 0 || xs[i] == 1
    ensures Sum(xs) == |set i | 0 <= i < |xs| && xs[i] == 1|
  {
    var ones := set i | 0 <= i < |xs| && xs[i] == 1;
    if xs == [] {
      assert ones == {};
    } else {
      var last := |xs| - 1;
      SumCounts(xs[..last]);
      var before := set i | 0 <= i < |xs[..last]| && xs[..last][i] == 1;
      assert ones == if xs[last] == 1 then before + {last} else before;
    }
  }
}
