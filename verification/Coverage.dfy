/**
 Coverage over whole runs: approved and settled losses against the bound capacity. The test is made
 when the loss is calculated and not again when a claim awaiting approval is decided, so the bound
 needs approvals on one syndication not to fall between the two; this module says exactly when it holds.
 (`apps/api/src/claims/claims.service.ts`, `packages/domain/src/claims.ts`)
 */
module Coverage {
  import opened Prelude
  import opened SyndicationMachine
  import opened Claims
  import opened ClaimsMachine
  import opened ClaimsRuns

  /** Approved and settled losses fit the capacity of every syndication. */
  ghost predicate Covered(w: World) {
    forall k :: 0 <= k < |w.ledger.records| ==> ApprovedLoss(w.book.claims, k) <= w.ledger.records[k].capacity
  }

  // ---------------------------------------------------------------- the running total, one call at a time

  lemma {:induction false} ApprovedLossUpdate(claims: seq<Claim>, id: nat, claim: Claim, k: nat)
    requires id < |claims|
    ensures ApprovedLoss(claims[id := claim], k) == ApprovedLoss(claims, k) - Counted(claims[id], k) + Counted(claim, k)
  {
    var last := |claims| - 1;
    if id == last {
      assert claims[id := claim][..last] == claims[..last];
    } else {
      assert claims[id := claim][..last] == claims[..last][id := claim];
      ApprovedLossUpdate(claims[..last], id, claim, k);
    }
  }

  lemma {:induction false} ApprovedLossOfNone(claims: seq<Claim>, k: nat)
    requires forall i :: 0 <= i < |claims| ==> claims[i].syndication != k
    ensures ApprovedLoss(claims, k) == 0
  {
    if claims != [] {
      ApprovedLossOfNone(claims[..|claims| - 1], k);
    }
  }

  /** This call turns claim `e` from not yet approved to approved. */
  ghost predicate Approves(before: World, after: World, e: nat) {
    e < |before.book.claims| <= |after.book.claims|
    && !Paid(before.book.claims[e].status) && Paid(after.book.claims[e].status)
  }

  /** One claim replaced by a later form of itself. */
  ghost predicate Touches(before: seq<Claim>, after: seq<Claim>, target: nat) {
    && target < |before| == |after|
    && after == before[target := after[target]]
    && ClaimEvolves(before[target], after[target])
  }

  lemma NextTouches(w: World, call: Call, target: nat)
    requires Linked(w) && Target(call) == Some(target) && target < |w.book.claims|
    ensures Touches(w.book.claims, Next(w, call).book.claims, target)
  {
    OthersUntouched(w, call, target);
    assert LinkedClaim(w.ledger, w.book.claims[target]);
    NextEvolves(w, call, target);
  }

  lemma NextTouchesNone(w: World, call: Call, k: nat)
    requires Target(call).None? || Target(call).value >= |w.book.claims|
    ensures w.book.claims <= Next(w, call).book.claims
    ensures ApprovedLoss(Next(w, call).book.claims, k) == ApprovedLoss(w.book.claims, k)
  {
    var claims := Next(w, call).book.claims;
    if claims != w.book.claims {
      assert claims[..|w.book.claims|] == w.book.claims;
    }
  }

  lemma TouchTotal(before: seq<Claim>, after: seq<Claim>, target: nat, k: nat)
    requires Touches(before, after, target)
    ensures ApprovedLoss(after, k) == ApprovedLoss(before, k)
      + if !Paid(before[target].status) && Paid(after[target].status) then Counted(after[target], k) else 0
  {
    ApprovedLossUpdate(before, target, after[target], k);
  }

  /** The running total of a syndication moves only when a claim on it is approved. */
  lemma NextApprovedLoss(w: World, call: Call, k: nat)
    requires Linked(w)
    requires forall e: nat :: Approves(w, Next(w, call), e) ==> w.book.claims[e].syndication != k
    ensures ApprovedLoss(Next(w, call).book.claims, k) == ApprovedLoss(w.book.claims, k)
  {
    if Target(call).Some? && Target(call).value < |w.book.claims| {
      var target := Target(call).value;
      NextTouches(w, call, target);
      TouchTotal(w.book.claims, Next(w, call).book.claims, target, k);
      assert Approves(w, Next(w, call), target) ==> w.book.claims[target].syndication != k;
    } else {
      NextTouchesNone(w, call, k);
    }
  }

  /** A claim that this call would approve. */
  predicate WouldApprove(w: World, call: Call, id: nat) {
    && call.OnClaims? && id < |w.book.claims|
    && match call.claimCommand
       case Decide(target, decision) => target == id && w.book.claims[id].status == AWAITING_APPROVAL && decision == Approve
       case Advance(target, to) => target == id && to == APPROVED && CanTransition(w.book.claims[id].status, APPROVED)
       case _ => false
  }

  /** The guard the code does not re-test: approving this claim now would exceed the capacity. */
  predicate Overdraws(w: World, call: Call) {
    Target(call).Some? && OverdrawsFor(w, call, Target(call).value)
  }

  predicate OverdrawsFor(w: World, call: Call, id: nat) {
    && WouldApprove(w, call, id)
    && var claim := w.book.claims[id];
       && claim.loss.Some? && claim.syndication < |w.ledger.records|
       && ApprovedLoss(w.book.claims, claim.syndication) + claim.loss.value > w.ledger.records[claim.syndication].capacity
  }

  lemma LedgerCallKeepsCovered(w: World, c: Command)
    requires Linked(w) && Covered(w)
    ensures Covered(Next(w, OnLedger(c)))
  {
    var after := Next(w, OnLedger(c));
    forall k | 0 <= k < |after.ledger.records|
      ensures ApprovedLoss(w.book.claims, k) <= after.ledger.records[k].capacity
    {
      if k < |w.ledger.records| {
        CapacityFixed(w, OnLedger(c), k);
      } else {
        forall i | 0 <= i < |w.book.claims| ensures w.book.claims[i].syndication != k {
          assert LinkedClaim(w.ledger, w.book.claims[i]);
        }
        ApprovedLossOfNone(w.book.claims, k);
      }
    }
  }

  lemma CapacityFixed(w: World, call: Call, k: nat)
    requires k < |w.ledger.records|
    ensures k < |Next(w, call).ledger.records|
    ensures Next(w, call).ledger.records[k].capacity == w.ledger.records[k].capacity
  {
    if call.OnLedger? {
      StepEvolves(w.ledger, call.ledgerCommand, k);
    }
  }

  /** A claim is approved by `decide` or `advance` with the loss it had, or by a coverage test it has just passed. */
  lemma WaysToApprove(w: World, call: Call, target: nat)
    requires Linked(w) && Target(call) == Some(target) && target < |w.book.claims|
    ensures var claim := w.book.claims[target];
            var after := Next(w, call).book.claims[target];
            && claim.syndication < |w.ledger.records|
            && (WouldApprove(w, call, target) ==> !Paid(claim.status) && Paid(after.status) && after.loss == claim.loss)
            && (!WouldApprove(w, call, target) && !Paid(claim.status) && Paid(after.status) ==>
                  && after.loss.Some?
                  && ApprovedLoss(w.book.claims, claim.syndication) + after.loss.value
                     <= w.ledger.records[claim.syndication].capacity)
  {
    assert LinkedClaim(w.ledger, w.book.claims[target]);
    match call.claimCommand
    case Advance(_, to) => ApprovedByAdvance(w, target, to);
    case CalculateLoss(_, loss, ceiling) => ApprovedByTest(w, target, loss, ceiling);
    case Decide(_, decision) => ApprovedByDecision(w, target, decision);
    case Settle(_) => SettledOnly(w, target);
  }

  lemma ApprovedByAdvance(w: World, target: nat, to: ClaimStatus)
    requires target < |w.book.claims| && LinkedClaim(w.ledger, w.book.claims[target])
    ensures var claim, call := w.book.claims[target], OnClaims(Advance(target, to));
            var after := Next(w, call).book.claims[target];
            && after.loss == claim.loss
            && (WouldApprove(w, call, target) <==> !Paid(claim.status) && Paid(after.status))
  {
  }

  lemma SettledOnly(w: World, target: nat)
    requires target < |w.book.claims|
    ensures var claim, after := w.book.claims[target], Next(w, OnClaims(Settle(target))).book.claims[target];
            Paid(after.status) ==> Paid(claim.status)
  {
  }

  lemma ApprovedByTest(w: World, target: nat, loss: nat, ceiling: nat)
    requires target < |w.book.claims| && w.book.claims[target].syndication < |w.ledger.records|
    ensures var claim := w.book.claims[target];
            var after := Next(w, OnClaims(CalculateLoss(target, loss, ceiling))).book.claims[target];
            !Paid(claim.status) && Paid(after.status) ==>
              && after.loss.Some?
              && ApprovedLoss(w.book.claims, claim.syndication) + after.loss.value
                 <= w.ledger.records[claim.syndication].capacity
  {
  }

  lemma ApprovedByDecision(w: World, target: nat, decision: Decision)
    requires target < |w.book.claims|
    ensures var claim, call := w.book.claims[target], OnClaims(Decide(target, decision));
            var after := Next(w, call).book.claims[target];
            && after.loss == claim.loss
            && (WouldApprove(w, call, target) <==> !Paid(claim.status) && Paid(after.status))
  {
  }

  /** What the call does to the total of the syndication it concerns. */
  lemma TargetTotal(w: World, call: Call, target: nat)
    requires Linked(w) && Covered(w) && Target(call) == Some(target) && target < |w.book.claims|
    ensures var k := w.book.claims[target].syndication;
            && k < |w.ledger.records|
            && (ApprovedLoss(Next(w, call).book.claims, k) <= w.ledger.records[k].capacity <==> !Overdraws(w, call))
  {
    WaysToApprove(w, call, target);
    NextTouches(w, call, target);
    TouchTotal(w.book.claims, Next(w, call).book.claims, target, w.book.claims[target].syndication);
  }

  lemma OtherTotals(w: World, call: Call, k: nat)
    requires Linked(w) && call.OnClaims?
    requires Target(call).Some? && Target(call).value < |w.book.claims| ==> w.book.claims[Target(call).value].syndication != k
    ensures ApprovedLoss(Next(w, call).book.claims, k) == ApprovedLoss(w.book.claims, k)
  {
    if Target(call).Some? && Target(call).value < |w.book.claims| {
      NextTouches(w, call, Target(call).value);
      TouchTotal(w.book.claims, Next(w, call).book.claims, Target(call).value, k);
    } else {
      NextTouchesNone(w, call, k);
    }
  }

  /** Exactly which calls break coverage. */
  lemma CoveredStep(w: World, call: Call)
    requires Linked(w) && Covered(w)
    ensures Covered(Next(w, call)) <==> !Overdraws(w, call)
  {
    if call.OnLedger? {
      LedgerCallKeepsCovered(w, call.ledgerCommand);
    } else {
      var after := Next(w, call);
      assert after.ledger == w.ledger;
      forall k: nat | k < |w.ledger.records|
        && (Target(call).Some? && Target(call).value < |w.book.claims| ==> w.book.claims[Target(call).value].syndication != k)
        ensures ApprovedLoss(after.book.claims, k) == ApprovedLoss(w.book.claims, k)
      {
        OtherTotals(w, call, k);
      }
      if Target(call).Some? && Target(call).value < |w.book.claims| {
        TargetTotal(w, call, Target(call).value);
      }
    }
  }
}
