/** Claim transitions, the coverage test and the division of a loss (`packages/domain/src/claims.ts`). */
module Claims {
  import opened Prelude
  import opened Sequences
  import opened Money
  import opened Apportionment
  import opened Syndication

  datatype ClaimStatus =
    | REPORTED | EVIDENCE_COLLECTED | VERIFIED | COVERAGE_CONFIRMED | LOSS_CALCULATED
    | AWAITING_APPROVAL | APPROVED | REJECTED | SETTLED

  datatype Review = Auto | HumanReview

  datatype Decision = Approve | Reject

  datatype ClaimError =
    | SyndicationNotFound | Unauthorised | ClaimNotFound | InvalidTransition | SyndicationNotBound
    | LossExceedsRemainingCapacity | NotAwaitingApproval | NoCalculatedLoss | NoBoundAllocations | UnusableShares

  function Transitions(from: ClaimStatus): set<ClaimStatus> {
    match from
    case REPORTED => {EVIDENCE_COLLECTED}
    case EVIDENCE_COLLECTED => {VERIFIED}
    case VERIFIED => {COVERAGE_CONFIRMED}
    case COVERAGE_CONFIRMED => {LOSS_CALCULATED}
    case LOSS_CALCULATED => {AWAITING_APPROVAL, APPROVED}
    case AWAITING_APPROVAL => {APPROVED, REJECTED}
    case APPROVED => {SETTLED}
    case REJECTED => {}
    case SETTLED => {}
  }

  predicate CanTransition(from: ClaimStatus, to: ClaimStatus) {
    to in Transitions(from)
  }

  /** How far along its life a claim is. */
  function Rank(status: ClaimStatus): nat {
    match status
    case REPORTED => 0
    case EVIDENCE_COLLECTED => 1
    case VERIFIED => 2
    case COVERAGE_CONFIRMED => 3
    case LOSS_CALCULATED => 4
    case AWAITING_APPROVAL => 5
    case APPROVED => 6
    case REJECTED => 7
    case SETTLED => 7
  }

  /** The status in which a claim counts against capacity and has been divided among the providers. */
  predicate Paid(status: ClaimStatus) {
    status == APPROVED || status == SETTLED
  }

  function RequireCoverage(status: Status, capacity: int, priorApprovedLoss: int, claimedLoss: int): Option<ClaimError> {
    if status != Bound then Some(SyndicationNotBound)
    else if claimedLoss > capacity - priorApprovedLoss then Some(LossExceedsRemainingCapacity)
    else None
  }

  function ClassifyReview(claimedLoss: int, autoApprovalCeiling: int): Review {
    if claimedLoss <= autoApprovalCeiling then Auto else HumanReview
  }

  datatype Payout = Payout(org: string, amount: int)

  function ComputeClaimPayouts(loss: nat, allocations: seq<Allocation>): Result<seq<Payout>, ClaimError> {
    if allocations == [] then Err(NoBoundAllocations)
    else if !ValidWeights(Shares(allocations)) then Err(UnusableShares)
    else
      var amounts := Allocate(loss, Shares(allocations));
      Ok(seq(|allocations|, i requires 0 <= i < |allocations| => Payout(allocations[i].org, amounts[i])))
  }

  function PayoutAmounts(payouts: seq<Payout>): seq<int> {
    seq(|payouts|, i requires 0 <= i < |payouts| => payouts[i].amount)
  }

  /** The payouts name the providers in order, add up to the loss, and are each within a unit of pro rata. */
  lemma PayoutsAreExact(loss: nat, allocations: seq<Allocation>)
    requires ComputeClaimPayouts(loss, allocations).Ok?
    ensures var payouts := ComputeClaimPayouts(loss, allocations).value;
            && |payouts| == |allocations|
            && Sum(PayoutAmounts(payouts)) == loss
            && forall i :: 0 <= i < |payouts| ==> payouts[i].org == allocations[i].org
  {
    var payouts := ComputeClaimPayouts(loss, allocations).value;
    AllocateConserves(loss, Shares(allocations));
    assert PayoutAmounts(payouts) == Allocate(loss, Shares(allocations));
  }

  lemma PayoutWithinOneUnit(loss: nat, allocations: seq<Allocation>, i: nat)
    requires ComputeClaimPayouts(loss, allocations).Ok? && i < |allocations|
    requires TotalShareBps(allocations) == FULL_ALLOCATION_BPS
    ensures var amount := ComputeClaimPayouts(loss, allocations).value[i].amount;
            -FULL_ALLOCATION_BPS < FULL_ALLOCATION_BPS * amount - loss * allocations[i].shareBps < FULL_ALLOCATION_BPS
  {
    AllocateWithinOneUnit(loss, Shares(allocations), i);
  }
}
