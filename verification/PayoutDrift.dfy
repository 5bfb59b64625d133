/**
 Payouts accumulated over many claims on one bound syndication. Each claim is divided by largest
 remainder on its own, so rounding adds up: this module bounds by how much.
 (`packages/domain/src/claims.ts`, `packages/domain/src/syndication.ts`)
 */
module PayoutDrift {
  import opened Prelude
  import opened Sequences
  import opened Money
  import opened Apportionment
  import opened Syndication
  import opened SyndicationMachine
  import opened Claims
  import opened ClaimsMachine
  import opened ClaimsRuns

  /** Everything the i-th provider of syndication `k` has been allotted by recorded payouts. */
  function PaidTo(claims: seq<Claim>, payouts: map<nat, seq<Payout>>, k: nat, i: nat): int {
    if claims == [] then 0
    else
      var id := |claims| - 1;
      PaidTo(claims[..id], payouts, k, i)
      + if claims[id].syndication == k && id in payouts && i < |payouts[id]| then payouts[id][i].amount else 0
  }

  /** The number of approved or settled claims on syndication `k`. */
  function PaidClaims(claims: seq<Claim>, k: nat): nat {
    if claims == [] then 0
    else
      var last := claims[|claims| - 1];
      PaidClaims(claims[..|claims| - 1], k) + if last.syndication == k && Paid(last.status) then 1 else 0
  }

  /** The number of claims on `k` that are approved or settled. */
  lemma PaidClaimsMeaning(claims: seq<Claim>, k: nat)
    ensures PaidClaims(claims, k)
         == |set i | 0 <= i < |claims| && claims[i].syndication == k && (claims[i].status == APPROVED || claims[i].status == SETTLED)|
  {
    var counts := seq(|claims|, i requires 0 <= i < |claims| => if claims[i].syndication == k && Paid(claims[i].status) then 1 else 0);
    PaidClaimsSum(claims, k);
    SumCounts(counts);
    assert (set i | 0 <= i < |counts| && counts[i] == 1)
        == (set i | 0 <= i < |claims| && claims[i].syndication == k && (claims[i].status == APPROVED || claims[i].status == SETTLED));
  }

  lemma {:induction false} PaidClaimsSum(claims: seq<Claim>, k: nat)
    ensures PaidClaims(claims, k)
         == Sum(seq(|claims|, i requires 0 <= i < |claims| => if claims[i].syndication == k && Paid(claims[i].status) then 1 else 0))
  {
    if claims != [] {
      var earlier := claims[..|claims| - 1];
      PaidClaimsSum(earlier, k);
      var counts := seq(|claims|, i requires 0 <= i < |claims| => if claims[i].syndication == k && Paid(claims[i].status) then 1 else 0);
      assert counts[..|earlier|] == seq(|earlier|, i requires 0 <= i < |earlier| => if earlier[i].syndication == k && Paid(earlier[i].status) then 1 else 0);
    }
  }

  /** What was allotted to a provider: the sum of its entries in the payouts recorded for claims on `k`. */
  lemma {:induction false} PaidToMeaning(claims: seq<Claim>, payouts: map<nat, seq<Payout>>, k: nat, i: nat)
    ensures PaidTo(claims, payouts, k, i)
         == Sum(seq(|claims|, c requires 0 <= c < |claims| =>
                  if claims[c].syndication == k && c in payouts && i < |payouts[c]| then payouts[c][i].amount else 0))
  {
    if claims != [] {
      var earlier := claims[..|claims| - 1];
      PaidToMeaning(earlier, payouts, k, i);
      var all := seq(|claims|, c requires 0 <= c < |claims| =>
                  if claims[c].syndication == k && c in payouts && i < |payouts[c]| then payouts[c][i].amount else 0);
      assert all[..|earlier|] == seq(|earlier|, c requires 0 <= c < |earlier| =>
                  if earlier[c].syndication == k && c in payouts && i < |payouts[c]| then payouts[c][i].amount else 0);
    }
  }

  /** `drift` is within `count` units of FULL_ALLOCATION_BPS, strictly so unless nothing was counted. */
  ghost predicate WithinUnits(drift: int, count: nat) {
    && -FULL_ALLOCATION_BPS * count <= drift <= FULL_ALLOCATION_BPS * count
    && (0 < count ==> -FULL_ALLOCATION_BPS * count < drift < FULL_ALLOCATION_BPS * count)
  }

  /** One claim moves the i-th provider of `k` by less than a unit from its pro-rata share, or not at all. */
  ghost predicate Contributes(w: World, id: nat, k: nat, i: nat, share: int)
    requires id < |w.book.claims|
  {
    var claim := w.book.claims[id];
    if claim.syndication == k && Paid(claim.status) then
      && claim.loss.Some? && id in w.book.payouts && i < |w.book.payouts[id]|
      && WithinUnits(FULL_ALLOCATION_BPS * w.book.payouts[id][i].amount - claim.loss.value * share, 1)
    else claim.syndication == k ==> id !in w.book.payouts
  }

  lemma EveryClaimContributes(w: World, id: nat, k: nat, i: nat)
    requires Linked(w) && Sound(w) && id < |w.book.claims|
    requires k < |w.ledger.records| && i < |w.ledger.records[k].allocations|
    ensures Contributes(w, id, k, i, w.ledger.records[k].allocations[i].shareBps)
  {
    var claim := w.book.claims[id];
    assert SoundClaim(w, id) && LinkedClaim(w.ledger, claim);
    if claim.syndication == k && Paid(claim.status) {
      assert ValidRecord(w.ledger.records[k]);
      PayoutWithinOneUnit(claim.loss.value, w.ledger.records[k].allocations, i);
    }
  }

  lemma AddClaim(paid: int, total: int, count: nat, amount: int, loss: int, share: int)
    requires WithinUnits(FULL_ALLOCATION_BPS * paid - total * share, count)
    requires WithinUnits(FULL_ALLOCATION_BPS * amount - loss * share, 1)
    ensures WithinUnits(FULL_ALLOCATION_BPS * (paid + amount) - (total + loss) * share, count + 1)
  {
    assert (total + loss) * share == total * share + loss * share;
  }

  ghost predicate DriftWithin(w: World, claims: seq<Claim>, k: nat, i: nat, share: int) {
    WithinUnits(FULL_ALLOCATION_BPS * PaidTo(claims, w.book.payouts, k, i) - ApprovedLoss(claims, k) * share,
                PaidClaims(claims, k))
  }

  lemma ExtendDrift(w: World, k: nat, i: nat, share: int, n: nat)
    requires n < |w.book.claims| && Contributes(w, n, k, i, share)
    requires DriftWithin(w, w.book.claims[..n], k, i, share)
    ensures DriftWithin(w, w.book.claims[..n + 1], k, i, share)
  {
    var before, claim := w.book.claims[..n], w.book.claims[n];
    assert w.book.claims[..n + 1][..n] == before;
    if claim.syndication == k && Paid(claim.status) {
      AddClaim(PaidTo(before, w.book.payouts, k, i), ApprovedLoss(before, k), PaidClaims(before, k),
               w.book.payouts[n][i].amount, claim.loss.value, share);
    }
  }

  lemma {:induction false} PrefixDrift(w: World, k: nat, i: nat, share: int, n: nat)
    requires n <= |w.book.claims| && forall id :: 0 <= id < n ==> Contributes(w, id, k, i, share)
    ensures DriftWithin(w, w.book.claims[..n], k, i, share)
  {
    if n > 0 {
      PrefixDrift(w, k, i, share, n - 1);
      ExtendDrift(w, k, i, share, n - 1);
    }
  }

  /** Within capacity, drift from pro rata is drift from the bound amount, itself within a unit of pro rata. */
  lemma DriftFromBound(paid: int, total: int, count: nat, share: int, capacity: int, bound: int)
    requires WithinUnits(FULL_ALLOCATION_BPS * paid - total * share, count)
    requires capacity * share - FULL_ALLOCATION_BPS < FULL_ALLOCATION_BPS * bound
    requires 0 <= share && total <= capacity
    ensures paid <= bound + count
  {
    MulOrder(share, total, capacity);
  }

  /**
   Cumulative payout drift: after any documented run, what the i-th provider of a syndication has been
   allotted over its K approved claims is within K units of its pro-rata share of their total loss, and
   while that total is within capacity it is at most the provider's bound amount plus K.
   */
  lemma CumulativePayoutDrift(calls: seq<Call>, k: nat, i: nat)
    requires forall c :: 0 <= c < |calls| ==> Documented(calls[c])
    requires var w := RunWorld(EMPTY_WORLD, calls);
             k < |w.ledger.records| && w.ledger.records[k].status == Bound && i < |w.ledger.records[k].allocations|
    ensures var w := RunWorld(EMPTY_WORLD, calls);
            var provider := w.ledger.records[k].allocations[i];
            var paid, count := PaidTo(w.book.claims, w.book.payouts, k, i), PaidClaims(w.book.claims, k);
            var total := ApprovedLoss(w.book.claims, k);
            && WithinUnits(FULL_ALLOCATION_BPS * paid - total * provider.shareBps, count)
            && (total <= w.ledger.records[k].capacity ==> paid <= provider.amount + count)
  {
    RunSound(calls);
    RunLinked(EMPTY_WORLD, calls);
    var w := RunWorld(EMPTY_WORLD, calls);
    WorldDrift(w, k, i);
  }

  lemma WorldDrift(w: World, k: nat, i: nat)
    requires Linked(w) && Sound(w)
    requires k < |w.ledger.records| && w.ledger.records[k].status == Bound && i < |w.ledger.records[k].allocations|
    ensures DriftWithin(w, w.book.claims, k, i, w.ledger.records[k].allocations[i].shareBps)
    ensures ApprovedLoss(w.book.claims, k) <= w.ledger.records[k].capacity ==>
              PaidTo(w.book.claims, w.book.payouts, k, i) <= w.ledger.records[k].allocations[i].amount + PaidClaims(w.book.claims, k)
  {
    var share := w.ledger.records[k].allocations[i].shareBps;
    forall id | 0 <= id < |w.book.claims| ensures Contributes(w, id, k, i, share) {
      EveryClaimContributes(w, id, k, i);
    }
    PrefixDrift(w, k, i, share, |w.book.claims|);
    assert w.book.claims[..|w.book.claims|] == w.book.claims;
    if ApprovedLoss(w.book.claims, k) <= w.ledger.records[k].capacity {
      BoundAmountLowerBound(w.ledger, k, i);
      DriftFromBound(PaidTo(w.book.claims, w.book.payouts, k, i), ApprovedLoss(w.book.claims, k), PaidClaims(w.book.claims, k),
                     w.ledger.records[k].allocations[i].shareBps, w.ledger.records[k].capacity,
                     w.ledger.records[k].allocations[i].amount);
    }
  }

  lemma BoundAmountLowerBound(ledger: Ledger, k: nat, i: nat)
    requires Valid(ledger) && k < |ledger.records| && ledger.records[k].status == Bound
    requires i < |ledger.records[k].allocations|
    ensures var provider := ledger.records[k].allocations[i];
            && 0 <= provider.shareBps
            && ledger.records[k].capacity * provider.shareBps - FULL_ALLOCATION_BPS < FULL_ALLOCATION_BPS * provider.amount
  {
    var record := ledger.records[k];
    assert ValidRecord(record);
    AllocateWithinOneUnit(record.capacity, Shares(record.allocations), i);
    assert record.allocations[i].amount == Amounts(record.allocations)[i];
  }

  /** A single claim for the whole capacity pays every provider exactly what it bound. */
  lemma FullLossPaysBoundAmounts(calls: seq<Call>, id: nat)
    requires forall c :: 0 <= c < |calls| ==> Documented(calls[c])
    requires var w := RunWorld(EMPTY_WORLD, calls);
             && id < |w.book.claims| && Paid(w.book.claims[id].status)
             && w.book.claims[id].syndication < |w.ledger.records|
             && w.book.claims[id].loss == Some(w.ledger.records[w.book.claims[id].syndication].capacity)
    ensures var w := RunWorld(EMPTY_WORLD, calls);
            id in w.book.payouts
            && PayoutAmounts(w.book.payouts[id]) == Amounts(w.ledger.records[w.book.claims[id].syndication].allocations)
  {
    RunSound(calls);
    RunLinked(EMPTY_WORLD, calls);
    var w := RunWorld(EMPTY_WORLD, calls);
    assert SoundClaim(w, id) && LinkedClaim(w.ledger, w.book.claims[id]);
    assert ValidRecord(w.ledger.records[w.book.claims[id].syndication]);
  }
}
