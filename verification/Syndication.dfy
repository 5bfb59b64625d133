/**
 Proposing, withdrawing and binding shares of a syndication (`packages/domain/src/syndication.ts`) and
 the cross-syndication capital position (`packages/domain/src/capital-ledger.ts`), on values.
 Amounts are minor units of one currency.
 */
module Syndication {
  import opened Prelude
  import opened Sequences
  import opened Money
  import opened Apportionment

  const FULL_ALLOCATION_BPS := 10_000

  datatype Allocation = Allocation(org: string, shareBps: int, amount: int)

  datatype SyndicationError =
    | NotFound | NotOpen | Unauthorised | ListingNotOpen | AlreadySyndicated
    | NoLiveInterest | InvalidShare | DuplicateAllocation | OverAllocation | ExposureLimitExceeded
    | NoCapitalCommitment | InsufficientCommittedCapital
    | AllocationNotFound | IncompleteAllocation | UnusableWeights

  function Shares(allocations: seq<Allocation>): seq<int> {
    seq(|allocations|, i requires 0 <= i < |allocations| => allocations[i].shareBps)
  }

  function TotalShareBps(allocations: seq<Allocation>): int {
    Sum(Shares(allocations))
  }

  function Amounts(allocations: seq<Allocation>): seq<int> {
    seq(|allocations|, i requires 0 <= i < |allocations| => allocations[i].amount)
  }

  predicate Participates(allocations: seq<Allocation>, org: string) {
    exists i :: 0 <= i < |allocations| && allocations[i].org == org
  }

  ghost predicate DistinctOrgs(allocations: seq<Allocation>) {
    forall i, j :: 0 <= i < j < |allocations| ==> allocations[i].org != allocations[j].org
  }

  function ProposeAllocation(current: seq<Allocation>, org: string, shareBps: int, capacity: nat, maxExposure: Option<int>)
    : Result<seq<Allocation>, SyndicationError>
  {
    var amount := ScaleByBps(capacity, shareBps);
    if shareBps <= 0 || shareBps > FULL_ALLOCATION_BPS then Err(InvalidShare)
    else if Participates(current, org) then Err(DuplicateAllocation)
    else if TotalShareBps(current) + shareBps > FULL_ALLOCATION_BPS then Err(OverAllocation)
    else if maxExposure.Some? && amount > maxExposure.value then Err(ExposureLimitExceeded)
    else Ok(current + [Allocation(org, shareBps, amount)])
  }

  /** Everyone but `org`, in the same order. */
  function Without(allocations: seq<Allocation>, org: string): seq<Allocation> {
    if allocations == [] then []
    else
      var rest, last := Without(allocations[..|allocations| - 1], org), allocations[|allocations| - 1];
      if last.org == org then rest else rest + [last]
  }

  function RemoveAllocation(current: seq<Allocation>, org: string): Result<seq<Allocation>, SyndicationError> {
    if Participates(current, org) then Ok(Without(current, org)) else Err(AllocationNotFound)
  }

  function WithAmounts(allocations: seq<Allocation>, amounts: seq<int>): (r: seq<Allocation>)
    requires |amounts| == |allocations|
  {
    seq(|allocations|, i requires 0 <= i < |allocations| => allocations[i].(amount := amounts[i]))
  }

  function BindAllocations(proposals: seq<Allocation>, capacity: nat): Result<seq<Allocation>, SyndicationError> {
    if TotalShareBps(proposals) != FULL_ALLOCATION_BPS then Err(IncompleteAllocation)
    else if !ValidWeights(Shares(proposals)) then Err(UnusableWeights)
    else Ok(WithAmounts(proposals, Allocate(capacity, Shares(proposals))))
  }

  /** Removing the one allocation of an organisation deletes that position and nothing else. */
  lemma {:induction false} WithoutDeletesOne(allocations: seq<Allocation>, i: nat)
    requires DistinctOrgs(allocations) && i < |allocations|
    ensures Without(allocations, allocations[i].org) == allocations[..i] + allocations[i + 1..]
  {
    var last := |allocations| - 1;
    if i == last {
      WithoutStranger(allocations[..last], allocations[i].org);
    } else {
      WithoutDeletesOne(allocations[..last], i);
      assert allocations[i + 1..] == allocations[..last][i + 1..] + [allocations[last]];
    }
  }

  lemma {:induction false} WithoutStranger(allocations: seq<Allocation>, org: string)
    requires forall i :: 0 <= i < |allocations| ==> allocations[i].org != org
    ensures Without(allocations, org) == allocations
  {
    if allocations != [] {
      var last := |allocations| - 1;
      WithoutStranger(allocations[..last], org);
      assert Without(allocations, org) == allocations[..last] + [allocations[last]];
    }
  }

  lemma NearestIsFloorOrNext(exact: int, floor: int, r: int, q: int)
    requires exact == FULL_ALLOCATION_BPS * floor + r && 0 <= r < FULL_ALLOCATION_BPS && Nearest(exact, FULL_ALLOCATION_BPS, q)
    ensures q == floor || q == floor + 1
  {
  }

  /**
   A largest-remainder part against the share rounded to nearest, whichever way halves go and whoever comes
   first among equal fractions: at most a unit apart, and the part is larger exactly if it got a left-over
   unit while the rounding went down.
   */
  lemma PartAgainstNearest(capacity: nat, shares: seq<int>, parts: seq<int>, i: nat, q: int)
    requires ValidWeights(shares) && Sum(shares) == FULL_ALLOCATION_BPS && i < |shares|
    requires LargestRemainder(capacity, shares, parts) && Nearest(capacity * shares[i], FULL_ALLOCATION_BPS, q)
    ensures -1 <= parts[i] - q <= 1
    ensures parts[i] > q <==> parts[i] == FloorOf(capacity, shares, i) + 1 && q == FloorOf(capacity, shares, i)
  {
    ExactShare(capacity, shares, i);
    NearestIsFloorOrNext(capacity * shares[i], FloorOf(capacity, shares, i), FractionOf(capacity, shares, i), q);
  }

  /** The i-th participant is served a left-over unit, and was proposed with its share rounded down. */
  predicate RaisesAbove(capacity: nat, shares: seq<int>, i: nat, proposed: int)
    requires ValidWeights(shares) && i < |shares|
  {
    Served(capacity, shares, i) && proposed == FloorOf(capacity, shares, i)
  }

  /** The computed part against a nearest amount. */
  lemma ApportionedAgainstNearest(capacity: nat, shares: seq<int>, i: nat, q: int)
    requires ValidWeights(shares) && Sum(shares) == FULL_ALLOCATION_BPS && i < |shares|
    requires Nearest(capacity * shares[i], FULL_ALLOCATION_BPS, q)
    ensures -1 <= Apportion(capacity, shares)[i] - q <= 1
    ensures Apportion(capacity, shares)[i] > q <==> RaisesAbove(capacity, shares, i, q)
  {
    ApportionIsLargestRemainder(capacity, shares);
    PartAgainstNearest(capacity, shares, Apportion(capacity, shares), i, q);
    RaisedIffServed(capacity, shares, i);
  }

  /** Binding this list would give its i-th participant more than it was proposed with. */
  predicate BindRaises(proposals: seq<Allocation>, capacity: nat, i: nat)
    requires ValidWeights(Shares(proposals)) && i < |proposals|
  {
    RaisesAbove(capacity, Shares(proposals), i, proposals[i].amount)
  }

  /** Binding replaces a nearest amount by one at most a unit away, and says exactly when by one more. */
  lemma BindMovesByAtMostOne(proposals: seq<Allocation>, capacity: nat, i: nat)
    requires i < |proposals| && BindAllocations(proposals, capacity).Ok?
    requires Nearest(capacity * proposals[i].shareBps, FULL_ALLOCATION_BPS, proposals[i].amount)
    ensures -1 <= BindAllocations(proposals, capacity).value[i].amount - proposals[i].amount <= 1
    ensures BindAllocations(proposals, capacity).value[i].amount > proposals[i].amount <==> BindRaises(proposals, capacity, i)
  {
    ApportionedAgainstNearest(capacity, Shares(proposals), i, proposals[i].amount);
  }

  // ---------------------------------------------------------------- capital position

  datatype Status = Open | Bound | Cancelled

  datatype Contribution = Contribution(status: Status, amount: int)

  datatype Position = Position(committed: int, bound: int, reserved: int, available: int, utilisationBps: int)

  /** The summed amounts of the contributions with a given status. */
  function StatusTotal(contributions: seq<Contribution>, status: Status): int {
    if contributions == [] then 0
    else
      var rest, last := StatusTotal(contributions[..|contributions| - 1], status), contributions[|contributions| - 1];
      if last.status == status then rest + last.amount else rest
  }

  /** The total over contributions of a status is the sum of their amounts. */
  lemma {:induction false} StatusTotalMeaning(contributions: seq<Contribution>, status: Status)
    ensures StatusTotal(contributions, status)
         == Sum(seq(|contributions|, i requires 0 <= i < |contributions| => if contributions[i].status == status then contributions[i].amount else 0))
  {
    if contributions != [] {
      var earlier := contributions[..|contributions| - 1];
      StatusTotalMeaning(earlier, status);
      var all := seq(|contributions|, i requires 0 <= i < |contributions| => if contributions[i].status == status then contributions[i].amount else 0);
      assert all[..|earlier|] == seq(|earlier|, i requires 0 <= i < |earlier| => if earlier[i].status == status then earlier[i].amount else 0);
    }
  }

  function Available(committed: int, used: int): int {
    if used >= committed then 0 else committed - used
  }

  /** `bound` is the source's `allocated`. An overcommitted position shows no availability and over 10000 bps. */
  method ComputePosition(committed: nat, contributions: seq<Contribution>) returns (p: Position)
    ensures p.committed == committed
    ensures p.bound == StatusTotal(contributions, Bound)
    ensures p.reserved == StatusTotal(contributions, Open)
    ensures p.available == Available(committed, p.bound + p.reserved)
    ensures p.available >= 0 && p.available >= committed - p.bound - p.reserved
    ensures p.available == 0 || p.available == committed - p.bound - p.reserved
    ensures p.utilisationBps == if committed == 0 then 0 else RoundDiv((p.bound + p.reserved) * 10_000, committed)
  {
    var bound, reserved := 0, 0;
    for i := 0 to |contributions|
      invariant bound == StatusTotal(contributions[..i], Bound)
      invariant reserved == StatusTotal(contributions[..i], Open)
    {
      assert contributions[..i + 1][..i] == contributions[..i];
      var contribution := contributions[i];
      if contribution.status == Bound {
        bound := bound + contribution.amount;
      } else if contribution.status == Open {
        reserved := reserved + contribution.amount;
      }
    }
    assert contributions[..|contributions|] == contributions;
    var used := bound + reserved;
    p := Position(committed, bound, reserved, if used >= committed then 0 else committed - used,
                  if committed == 0 then 0 else RoundDiv(used * 10_000, committed));
  }
}
