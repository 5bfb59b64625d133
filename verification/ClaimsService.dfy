/**
 The stateful claims service (`apps/api/src/claims/claims.service.ts`) over the in-memory claims
 repository, reading the syndications of a `SyndicationService`. Every method performs exactly the
 corresponding step of `ClaimsMachine`; a call that throws after its first write leaves that write.
 */
module ClaimsServices {
  import opened Prelude
  import opened Syndication
  import opened SyndicationServices
  import opened Claims
  import opened ClaimsMachine

  /** `DEFAULT_AUTO_APPROVAL_CEILING`, the ceiling every caller of `calculateLoss` uses. */
  const DEFAULT_AUTO_APPROVAL_CEILING: nat := 2_500_000

  class ClaimsService {
    const syndications: SyndicationService
    var claims: seq<Claim>
    var payouts: map<nat, seq<Payout>>

    function State(): Book
      reads this
    {
      Book(claims, payouts)
    }

    constructor (syndications: SyndicationService)
      ensures this.syndications == syndications && State() == EMPTY_WORLD.book
    {
      this.syndications := syndications;
      claims, payouts := [], map[];
    }

    method Report(caller: string, syndication: nat) returns (r: ClaimOutcome)
      modifies this
      ensures (State(), r) == ClaimStep(syndications.State(), old(State()), ClaimCommand.Report(caller, syndication))
    {
      if syndication >= |syndications.records| {
        return Err(SyndicationNotFound);
      }
      if syndications.records[syndication].owner != caller {
        return Err(ClaimError.Unauthorised);
      }
      var id := |claims|;
      claims := claims + [Claim(syndication, caller, REPORTED, None, None, None)];
      return Ok(id);
    }

    method Advance(id: nat, to: ClaimStatus) returns (r: ClaimOutcome)
      modifies this
      ensures (State(), r) == ClaimStep(syndications.State(), old(State()), ClaimCommand.Advance(id, to))
    {
      if id >= |claims| {
        return Err(ClaimNotFound);
      }
      var claim := claims[id];
      if !CanTransition(claim.status, to) {
        return Err(InvalidTransition);
      }
      if to == COVERAGE_CONFIRMED {
        if claim.syndication >= |syndications.records| {
          return Err(SyndicationNotFound);
        }
        if syndications.records[claim.syndication].status != Bound {
          return Err(SyndicationNotBound);
        }
      }
      claims := claims[id := claim.(status := to)];
      return Ok(id);
    }

    /** `totalApprovedLoss` of the repository. */
    method TotalApprovedLoss(syndication: nat) returns (total: nat)
      ensures total == ApprovedLoss(claims, syndication)
    {
      total := 0;
      for i := 0 to |claims|
        invariant total == ApprovedLoss(claims[..i], syndication)
      {
        assert claims[..i + 1][..i] == claims[..i];
        var claim := claims[i];
        if claim.syndication == syndication && Paid(claim.status) && claim.loss.Some? {
          total := total + claim.loss.value;
        }
      }
      assert claims[..|claims|] == claims;
    }

    method CalculateLoss(id: nat, loss: nat, ceiling: nat := DEFAULT_AUTO_APPROVAL_CEILING) returns (r: ClaimOutcome)
      modifies this
      ensures (State(), r) == ClaimStep(syndications.State(), old(State()), ClaimCommand.CalculateLoss(id, loss, ceiling))
    {
      if id >= |claims| {
        return Err(ClaimNotFound);
      }
      var claim := claims[id];
      if !CanTransition(claim.status, LOSS_CALCULATED) {
        return Err(InvalidTransition);
      }
      if claim.syndication >= |syndications.records| {
        return Err(SyndicationNotFound);
      }
      var record := syndications.records[claim.syndication];
      var prior := TotalApprovedLoss(claim.syndication);
      var refused := RequireCoverage(record.status, record.capacity, prior, loss);
      if refused.Some? {
        return Err(refused.value);
      }
      var review := ClassifyReview(loss, ceiling);
      var next := if review == Auto then APPROVED else AWAITING_APPROVAL;
      claims := claims[id := claim.(loss := Some(loss), review := Some(review), status := next)];
      if review == Auto {
        r := RecordPayoutsAndAudit(id);
        return r;
      }
      return Ok(id);
    }

    method Decide(id: nat, decision: Decision) returns (r: ClaimOutcome)
      modifies this
      ensures (State(), r) == ClaimStep(syndications.State(), old(State()), ClaimCommand.Decide(id, decision))
    {
      if id >= |claims| {
        return Err(ClaimNotFound);
      }
      if claims[id].status != AWAITING_APPROVAL {
        return Err(NotAwaitingApproval);
      }
      claims := claims[id := claims[id].(decision := Some(decision), status := if decision == Approve then APPROVED else REJECTED)];
      if decision == Approve {
        r := RecordPayoutsAndAudit(id);
        return r;
      }
      return Ok(id);
    }

    method Settle(id: nat) returns (r: ClaimOutcome)
      modifies this
      ensures (State(), r) == ClaimStep(syndications.State(), old(State()), ClaimCommand.Settle(id))
    {
      if id >= |claims| {
        return Err(ClaimNotFound);
      }
      if !CanTransition(claims[id].status, SETTLED) {
        return Err(InvalidTransition);
      }
      claims := claims[id := claims[id].(status := SETTLED)];
      return Ok(id);
    }

    method RecordPayoutsAndAudit(id: nat) returns (r: ClaimOutcome)
      requires id < |claims|
      modifies this`payouts
      ensures (State(), r) == RecordPayouts(syndications.State(), old(State()), id)
    {
      var claim := claims[id];
      if claim.loss.None? {
        return Err(NoCalculatedLoss);
      }
      var allocations := if claim.syndication < |syndications.records| then syndications.records[claim.syndication].allocations else [];
      var computed := ComputeClaimPayouts(claim.loss.value, allocations);
      if computed.Err? {
        return Err(computed.error);
      }
      payouts := payouts[id := computed.value];
      return Ok(id);
    }
  }
}
