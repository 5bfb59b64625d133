/** Distance from a set of starting nodes, the specification of every traversal. */
module Distances {
  import opened GraphModel

  /** Some start reaches `n` in exactly `k` links. */
  ghost predicate FromAny(g: Graph, f: Filter, starts: set<Id>, n: Id, k: nat) {
    exists s :: s in starts && Walk(g, f, s, n, k)
  }

  /** The shortest walk from a start to `n` has `d` links. */
  ghost predicate IsDistance(g: Graph, f: Filter, starts: set<Id>, n: Id, d: nat) {
    FromAny(g, f, starts, n, d) && forall k: nat :: FromAny(g, f, starts, n, k) ==> d <= k
  }

  /** `m` maps exactly the nodes at distance at most `bound`, each to its distance. */
  ghost predicate IsDistanceMap(g: Graph, f: Filter, starts: set<Id>, bound: nat, m: map<Id, nat>) {
    && (forall n :: n in m ==> m[n] <= bound && IsDistance(g, f, starts, n, m[n]))
    && (forall n, k: nat :: k <= bound && FromAny(g, f, starts, n, k) ==> n in m)
  }

  /** Being in such a map at depth `d` is being at distance `d`, within the bound. */
  lemma DistanceMapExact(g: Graph, f: Filter, starts: set<Id>, bound: nat, m: map<Id, nat>, n: Id, d: nat)
    requires IsDistanceMap(g, f, starts, bound, m)
    ensures (n in m && m[n] == d) <==> (d <= bound && IsDistance(g, f, starts, n, d))
  {
  }

  /** From one node to another the distance is the same read backwards. */
  lemma DistanceReverse(g: Graph, f: Filter, a: Id, b: Id, d: nat)
    requires IsDistance(g, f, {a}, b, d)
    ensures IsDistance(g, Reverse(f), {b}, a, d)
  {
    WalkReverse(g, f, a, b, d);
    forall k: nat | FromAny(g, Reverse(f), {b}, a, k) ensures d <= k {
      WalkReverse(g, Reverse(f), b, a, k);
      assert Reverse(Reverse(f)) == f;
      assert FromAny(g, f, {a}, b, k);
    }
  }

  // ---------------------------------------------------------------- what a breadth-first level keeps

  /** Depths found so far are lengths of actual walks. */
  ghost predicate Witnessed(g: Graph, f: Filter, starts: set<Id>, depths: map<Id, nat>) {
    forall n :: n in depths ==> FromAny(g, f, starts, n, depths[n])
  }

  /** Every node shallower than `level` has had all its links followed, one deeper. */
  ghost predicate Expanded(g: Graph, f: Filter, depths: map<Id, nat>, level: nat) {
    forall a, b :: a in depths && depths[a] < level && Link(g, f, a, b) ==> b in depths && depths[b] <= depths[a] + 1
  }

  /** The complete levels reach every node within a short enough walk, at no greater depth. */
  lemma {:induction false} LevelsCover(g: Graph, f: Filter, starts: set<Id>, depths: map<Id, nat>, level: nat, n: Id, k: nat)
    requires Expanded(g, f, depths, level)
    requires forall s :: s in starts ==> s in depths && depths[s] == 0
    requires FromAny(g, f, starts, n, k)
    requires k <= level || (forall m :: m in depths ==> depths[m] < level)
    ensures n in depths && depths[n] <= k
    decreases k
  {
    var s :| s in starts && Walk(g, f, s, n, k);
    if k > 0 {
      var m :| Walk(g, f, s, m, k - 1) && Link(g, f, m, n);
      assert FromAny(g, f, starts, m, k - 1);
      LevelsCover(g, f, starts, depths, level, m, k - 1);
    }
  }

  /** When the levels up to the bound are complete, or nothing is left to follow, the depths are the distances. */
  lemma LevelsAreDistances(g: Graph, f: Filter, starts: set<Id>, depths: map<Id, nat>, level: nat, bound: nat)
    requires Witnessed(g, f, starts, depths) && Expanded(g, f, depths, level)
    requires forall s :: s in starts ==> s in depths && depths[s] == 0
    requires forall n :: n in depths ==> depths[n] <= level
    requires level <= bound
    requires level == bound || (forall n :: n in depths ==> depths[n] < level)
    ensures IsDistanceMap(g, f, starts, bound, depths)
  {
    forall n | n in depths ensures IsDistance(g, f, starts, n, depths[n]) {
      forall k: nat | FromAny(g, f, starts, n, k) ensures depths[n] <= k {
        if k <= level {
          LevelsCover(g, f, starts, depths, level, n, k);
        }
      }
    }
    forall n, k: nat | k <= bound && FromAny(g, f, starts, n, k) ensures n in depths {
      LevelsCover(g, f, starts, depths, level, n, k);
    }
  }
}
