/**
 What each call on the claims service requires and does, in its caller's terms: exactly when it is
 accepted, why it is refused, what it writes, and that it writes nothing else.
 (`apps/api/src/claims/claims.service.ts`, `packages/domain/src/claims.ts`)
 */
module ClaimsEffects {
  import opened Prelude
  import opened Sequences
  import opened Money
  import opened Syndication
  import opened Claims
  import opened ClaimsMachine
  import opened ClaimsRuns

  /** The ways a claim can move, and no others. */
  lemma MovesMeaning(from: ClaimStatus, to: ClaimStatus)
    ensures CanTransition(from, to) <==>
              match to
              case REPORTED => false
              case EVIDENCE_COLLECTED => from == REPORTED
              case VERIFIED => from == EVIDENCE_COLLECTED
              case COVERAGE_CONFIRMED => from == VERIFIED
              case LOSS_CALCULATED => from == COVERAGE_CONFIRMED
              case AWAITING_APPROVAL => from == LOSS_CALCULATED
              case APPROVED => from == LOSS_CALCULATED || from == AWAITING_APPROVAL
              case REJECTED => from == AWAITING_APPROVAL
              case SETTLED => from == APPROVED
  {
  }

  /** Only claim `id` and its payouts may differ; it keeps its syndication and owner. */
  ghost predicate WritesOnly(before: Book, after: Book, id: nat) {
    && |after.claims| == |before.claims|
    && (forall d :: 0 <= d < |before.claims| && d != id ==> after.claims[d] == before.claims[d])
    && (forall d: nat :: d != id ==> (d in after.payouts <==> d in before.payouts))
    && (forall d: nat :: d != id && d in before.payouts ==> after.payouts[d] == before.payouts[d])
    && (id < |before.claims| ==>
          after.claims[id].syndication == before.claims[id].syndication && after.claims[id].owner == before.claims[id].owner)
  }

  lemma ReportEffect(w: World, caller: string, syndication: nat)
    ensures var (after, outcome) := ClaimStep(w.ledger, w.book, Report(caller, syndication));
            && outcome == (
                 if syndication >= |w.ledger.records| then Err(SyndicationNotFound)
                 else if w.ledger.records[syndication].owner != caller then Err(ClaimError.Unauthorised) else Ok(|w.book.claims|))
            && (outcome.Err? ==> after == w.book)
            && (outcome.Ok? ==>
                  && after.payouts == w.book.payouts
                  && after.claims == w.book.claims + [Claim(syndication, caller, REPORTED, None, None, None)])
  {
  }

  /** `advance` is accepted exactly for a legal move, into COVERAGE_CONFIRMED only on a bound syndication; it changes the status alone. */
  lemma AdvanceEffect(w: World, id: nat, to: ClaimStatus)
    ensures var (after, outcome) := ClaimStep(w.ledger, w.book, Advance(id, to));
            && (id >= |w.book.claims| ==> outcome == Err(ClaimNotFound))
            && (id < |w.book.claims| ==>
                  var k := w.book.claims[id].syndication;
                  outcome == (
                    if !CanTransition(w.book.claims[id].status, to) then Err(InvalidTransition)
                    else if to != COVERAGE_CONFIRMED then Ok(id)
                    else if k >= |w.ledger.records| then Err(SyndicationNotFound)
                    else if w.ledger.records[k].status != Bound then Err(SyndicationNotBound) else Ok(id)))
            && (outcome.Err? ==> after == w.book)
            && (outcome.Ok? ==>
                  && WritesOnly(w.book, after, id) && after.payouts == w.book.payouts
                  && after.claims[id].status == to && after.claims[id].loss == w.book.claims[id].loss
                  && after.claims[id].review == w.book.claims[id].review && after.claims[id].decision == w.book.claims[id].decision)
  {
  }

  /** The loss a claim may still be calculated at on its syndication. */
  function RemainingFor(w: World, claim: Claim): int
    requires claim.syndication < |w.ledger.records|
  {
    w.ledger.records[claim.syndication].capacity - ApprovedLoss(w.book.claims, claim.syndication)
  }

  /** The loss and its review are stored; above the ceiling the claim awaits approval, and otherwise it is approved and paid out. */
  ghost predicate StoresLoss(w: World, after: Book, id: nat, loss: nat, ceiling: nat)
    requires id < |w.book.claims|
  {
    && WritesOnly(w.book, after, id)
    && var claim := after.claims[id];
       && claim.loss == Some(loss) && claim.decision == w.book.claims[id].decision
       && (loss > ceiling ==>
             claim.status == AWAITING_APPROVAL && claim.review == Some(HumanReview) && after.payouts == w.book.payouts)
       && (loss <= ceiling ==>
             claim.status == APPROVED && claim.review == Some(Auto) && PaysOut(w, after, id, loss))
  }

  /** A loss calculation is accepted exactly on a claim with confirmed coverage whose loss fits the remaining capacity. */
  lemma CalculateLossEffect(w: World, id: nat, loss: nat, ceiling: nat)
    requires Linked(w)
    ensures var (after, outcome) := ClaimStep(w.ledger, w.book, CalculateLoss(id, loss, ceiling));
            && (id >= |w.book.claims| ==> outcome == Err(ClaimNotFound))
            && (id < |w.book.claims| ==>
                  var claim := w.book.claims[id];
                  && claim.syndication < |w.ledger.records|
                  && outcome == (
                       if claim.status != COVERAGE_CONFIRMED then Err(InvalidTransition)
                       else if loss > RemainingFor(w, claim) then Err(LossExceedsRemainingCapacity) else Ok(id)))
            && (outcome.Err? ==> after == w.book)
            && (outcome.Ok? ==> StoresLoss(w, after, id, loss, ceiling))
  {
    if id < |w.book.claims| {
      var claim := w.book.claims[id];
      assert LinkedClaim(w.ledger, claim);
      if claim.status == COVERAGE_CONFIRMED && loss <= RemainingFor(w, claim) {
        CalculationStores(w, id, loss, ceiling);
      } else {
        CalculationRefusal(w, id, loss, ceiling);
      }
    }
  }

  lemma CalculationRefusal(w: World, id: nat, loss: nat, ceiling: nat)
    requires id < |w.book.claims| && LinkedClaim(w.ledger, w.book.claims[id])
    requires w.book.claims[id].status != COVERAGE_CONFIRMED || loss > RemainingFor(w, w.book.claims[id])
    ensures ClaimStep(w.ledger, w.book, CalculateLoss(id, loss, ceiling))
         == (w.book, Err(if w.book.claims[id].status != COVERAGE_CONFIRMED then InvalidTransition else LossExceedsRemainingCapacity))
  {
  }

  lemma CalculationStores(w: World, id: nat, loss: nat, ceiling: nat)
    requires Linked(w) && id < |w.book.claims| && w.book.claims[id].status == COVERAGE_CONFIRMED
    requires w.book.claims[id].syndication < |w.ledger.records| && loss <= RemainingFor(w, w.book.claims[id])
    ensures var (after, outcome) := ClaimStep(w.ledger, w.book, CalculateLoss(id, loss, ceiling));
            outcome == Ok(id) && StoresLoss(w, after, id, loss, ceiling)
  {
    DividedLoss(w, id, loss);
    CalculationWrites(w, id, loss, ceiling);
    StoredWithPayouts(w, id, loss, ceiling, ComputeClaimPayouts(loss, w.ledger.records[w.book.claims[id].syndication].allocations).value);
  }

  /** The claim as calculated, and the payouts if the loss is within the ceiling. */
  function Stored(w: World, id: nat, loss: nat, ceiling: nat, payouts: seq<Payout>): Book
    requires id < |w.book.claims|
  {
    var written := WithClaim(w.book, id, Calculated(w.book.claims[id], loss, ceiling));
    if loss <= ceiling then written.(payouts := written.payouts[id := payouts]) else written
  }

  lemma CalculationWrites(w: World, id: nat, loss: nat, ceiling: nat)
    requires Linked(w) && id < |w.book.claims| && w.book.claims[id].status == COVERAGE_CONFIRMED
    requires w.book.claims[id].syndication < |w.ledger.records| && loss <= RemainingFor(w, w.book.claims[id])
    ensures var payouts := ComputeClaimPayouts(loss, w.ledger.records[w.book.claims[id].syndication].allocations);
            payouts.Ok? && ClaimStep(w.ledger, w.book, CalculateLoss(id, loss, ceiling)) == (Stored(w, id, loss, ceiling, payouts.value), Ok(id))
  {
    assert LinkedClaim(w.ledger, w.book.claims[id]);
    PayoutsRecorded(w.ledger, WithClaim(w.book, id, Calculated(w.book.claims[id], loss, ceiling)), id, loss);
  }

  lemma StoredWithPayouts(w: World, id: nat, loss: nat, ceiling: nat, payouts: seq<Payout>)
    requires id < |w.book.claims| && w.book.claims[id].syndication < |w.ledger.records|
    requires Divides(payouts, w.ledger.records[w.book.claims[id].syndication].allocations, loss)
    ensures StoresLoss(w, Stored(w, id, loss, ceiling, payouts), id, loss, ceiling)
  {
  }

  /** The recorded payouts name the bound providers in order and divide the loss by largest remainder over their shares. */
  ghost predicate PaysOut(w: World, after: Book, id: nat, loss: nat)
    requires id < |w.book.claims|
  {
    && w.book.claims[id].syndication < |w.ledger.records|
    && var allocations := w.ledger.records[w.book.claims[id].syndication].allocations;
       && id in after.payouts && Divides(after.payouts[id], allocations, loss)
  }

  ghost predicate Divides(payouts: seq<Payout>, allocations: seq<Allocation>, loss: nat) {
    && |payouts| == |allocations| && (forall i :: 0 <= i < |payouts| ==> payouts[i].org == allocations[i].org)
    && ValidWeights(Shares(allocations))
    && LargestRemainder(loss, Shares(allocations), PayoutAmounts(payouts))
    && InQueueOrder(loss, Shares(allocations), PayoutAmounts(payouts))
  }

  lemma DividedLoss(w: World, id: nat, loss: nat)
    requires Linked(w) && id < |w.book.claims| && Rank(w.book.claims[id].status) >= 3
    ensures w.book.claims[id].syndication < |w.ledger.records|
    ensures var allocations := w.ledger.records[w.book.claims[id].syndication].allocations;
            var payouts := ComputeClaimPayouts(loss, allocations);
            payouts.Ok? && Divides(payouts.value, allocations, loss)
  {
    assert LinkedClaim(w.ledger, w.book.claims[id]);
    var allocations := w.ledger.records[w.book.claims[id].syndication].allocations;
    BoundRecordPays(w.ledger, w.book.claims[id].syndication, loss);
    ApportionIsLargestRemainder(loss, Shares(allocations));
    assert PayoutAmounts(ComputeClaimPayouts(loss, allocations).value) == Apportion(loss, Shares(allocations));
  }

  /**
   A decision is taken exactly on a claim awaiting approval, and always stored with it. Approval leaves the
   claim APPROVED with its loss paid out, if it has one; rejection leaves it REJECTED with nothing paid.
   */
  lemma DecideEffect(w: World, id: nat, decision: Decision)
    requires Linked(w)
    ensures var (after, outcome) := ClaimStep(w.ledger, w.book, Decide(id, decision));
            && (id >= |w.book.claims| ==> outcome == Err(ClaimNotFound) && after == w.book)
            && (id < |w.book.claims| && w.book.claims[id].status != AWAITING_APPROVAL ==>
                  outcome == Err(NotAwaitingApproval) && after == w.book)
            && (id < |w.book.claims| && w.book.claims[id].status == AWAITING_APPROVAL ==>
                  var (claim, loss) := (after.claims[id], w.book.claims[id].loss);
                  && WritesOnly(w.book, after, id) && claim.loss == loss && claim.review == w.book.claims[id].review
                  && claim.decision == Some(decision)
                  && (decision == Reject ==> outcome == Ok(id) && claim.status == REJECTED && after.payouts == w.book.payouts)
                  && (decision == Approve ==> claim.status == APPROVED)
                  && (decision == Approve && loss.Some? ==> outcome == Ok(id) && PaysOut(w, after, id, loss.value))
                  && (decision == Approve && loss.None? ==> outcome == Err(NoCalculatedLoss) && after.payouts == w.book.payouts))
  {
    if id < |w.book.claims| && w.book.claims[id].status == AWAITING_APPROVAL && decision == Approve && w.book.claims[id].loss.Some? {
      var claim, loss := w.book.claims[id], w.book.claims[id].loss.value;
      assert LinkedClaim(w.ledger, claim);
      PayoutsRecorded(w.ledger, WithClaim(w.book, id, claim.(decision := Some(decision), status := APPROVED)), id, loss);
      DividedLoss(w, id, loss);
    }
  }

  /** Settlement is accepted exactly on an approved claim; it changes the status alone. */
  lemma SettleEffect(w: World, id: nat)
    ensures var (after, outcome) := ClaimStep(w.ledger, w.book, Settle(id));
            && outcome == (
                 if id >= |w.book.claims| then Err(ClaimNotFound)
                 else if w.book.claims[id].status != APPROVED then Err(InvalidTransition) else Ok(id))
            && (outcome.Err? ==> after == w.book)
            && (outcome.Ok? ==>
                  && WritesOnly(w.book, after, id) && after.payouts == w.book.payouts
                  && after.claims[id] == w.book.claims[id].(status := SETTLED))
  {
  }

  /** A rejected or settled claim has come to its end. */
  predicate Ended(claim: Claim) {
    claim.status == REJECTED || claim.status == SETTLED
  }

  /** No call changes a claim that has come to its end, or its payouts. */
  lemma EndIsFinal(w: World, call: Call, id: nat)
    requires Linked(w) && id < |w.book.claims| && Ended(w.book.claims[id])
    ensures var after := Next(w, call).book;
            && id < |after.claims| && after.claims[id] == w.book.claims[id]
            && (id in after.payouts <==> id in w.book.payouts)
            && (id in w.book.payouts ==> after.payouts[id] == w.book.payouts[id])
  {
    if Target(call) == Some(id) {
      RefusedAtEnd(w, call, id);
    } else if Target(call).Some? {
      OthersUntouched(w, call, Target(call).value);
    }
  }

  lemma RefusedAtEnd(w: World, call: Call, id: nat)
    requires Target(call) == Some(id) && id < |w.book.claims| && Ended(w.book.claims[id])
    ensures Next(w, call).book == w.book
  {
    match call.claimCommand
    case Advance(_, to) => MovesMeaning(w.book.claims[id].status, to);
    case CalculateLoss(_, loss, ceiling) =>
    case Decide(_, decision) =>
    case Settle(_) =>
  }

  /** So a rejected claim stays rejected, and unpaid, over every further run. */
  lemma {:induction false} RejectedForGood(w: World, calls: seq<Call>, id: nat)
    requires Linked(w) && id < |w.book.claims| && Ended(w.book.claims[id])
    ensures var after := RunWorld(w, calls).book;
            && id < |after.claims| && after.claims[id] == w.book.claims[id]
            && (id in after.payouts <==> id in w.book.payouts)
            && (id in w.book.payouts ==> after.payouts[id] == w.book.payouts[id])
  {
    if calls != [] {
      var earlier := calls[..|calls| - 1];
      RejectedForGood(w, earlier, id);
      RunLinked(w, earlier);
      EndIsFinal(RunWorld(w, earlier), calls[|calls| - 1], id);
    }
  }

  // ---------------------------------------------------------------- counts over runs

  /** The calls of a run at which a claim that was there changed status. */
  ghost function ChangingCalls(calls: seq<Call>, id: nat): set<int> {
    set t | 0 <= t < |calls| && Differs(At(calls, t), Next(At(calls, t), calls[t]), id)
  }

  /** The claim is there in both, with different statuses. */
  predicate Differs(before: World, after: World, id: nat) {
    id < |before.book.claims| && id < |after.book.claims| && before.book.claims[id].status != after.book.claims[id].status
  }

  /** The number of status changes is the number of those calls. */
  lemma StatusChangesMeaning(calls: seq<Call>, id: nat)
    ensures StatusChanges(calls, id) == |ChangingCalls(calls, id)|
  {
    var counts := seq(|calls|, t requires 0 <= t < |calls| => Changed(At(calls, t), calls[t], id));
    StatusChangesSum(calls, id, |calls|);
    assert calls[..|calls|] == calls && counts[..|calls|] == counts;
    SumCounts(counts);
    assert (set t | 0 <= t < |counts| && counts[t] == 1) == ChangingCalls(calls, id);
  }

  lemma {:induction false} StatusChangesSum(calls: seq<Call>, id: nat, n: nat)
    requires n <= |calls|
    ensures StatusChanges(calls[..n], id)
         == Sum(seq(|calls|, t requires 0 <= t < |calls| => Changed(At(calls, t), calls[t], id))[..n])
  {
    if n > 0 {
      var counts := seq(|calls|, t requires 0 <= t < |calls| => Changed(At(calls, t), calls[t], id));
      StatusChangesSum(calls, id, n - 1);
      assert calls[..n][..n - 1] == calls[..n - 1] && counts[..n][..n - 1] == counts[..n - 1];
    }
  }
}
