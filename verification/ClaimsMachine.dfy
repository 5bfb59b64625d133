/**
 The claims service as a state machine (`apps/api/src/claims/claims.service.ts` over
 `InMemoryClaimsRepository`), running beside the syndication machine whose bound records it draws on.
 A claim's identifier is its position. `advance` accepts every legal target, as the code does.
 */
module ClaimsMachine {
  import opened Prelude
  import opened Sequences
  import opened Syndication
  import opened SyndicationMachine
  import opened Claims

  datatype Claim = Claim(
    syndication: nat, owner: string, status: ClaimStatus,
    loss: Option<nat>, review: Option<Review>, decision: Option<Decision>)

  /** The claims repository: the claims, and the payouts recorded for some of them. */
  datatype Book = Book(claims: seq<Claim>, payouts: map<nat, seq<Payout>>)

  datatype World = World(ledger: Ledger, book: Book)

  datatype ClaimCommand =
    | Report(caller: string, syndication: nat)
    | Advance(id: nat, to: ClaimStatus)
    | CalculateLoss(id: nat, loss: nat, ceiling: nat)
    | Decide(id: nat, decision: Decision)
    | Settle(id: nat)

  datatype Call = OnLedger(ledgerCommand: Command) | OnClaims(claimCommand: ClaimCommand)

  type ClaimOutcome = Result<nat, ClaimError>

  const EMPTY_WORLD := World(EMPTY, Book([], map[]))

  /** `totalApprovedLoss`: approved and settled losses on one syndication. */
  function ApprovedLoss(claims: seq<Claim>, syndication: nat): nat {
    if claims == [] then 0
    else ApprovedLoss(claims[..|claims| - 1], syndication) + Counted(claims[|claims| - 1], syndication)
  }

  function Counted(claim: Claim, syndication: nat): nat {
    if claim.syndication == syndication && Paid(claim.status) && claim.loss.Some? then claim.loss.value else 0
  }

  /** It is the sum of the losses stored for claims on that syndication that are approved or settled. */
  lemma {:induction false} ApprovedLossMeaning(claims: seq<Claim>, syndication: nat)
    ensures ApprovedLoss(claims, syndication)
         == Sum(seq(|claims|, i requires 0 <= i < |claims| =>
                  if claims[i].syndication == syndication && (claims[i].status == APPROVED || claims[i].status == SETTLED) && claims[i].loss.Some?
                  then claims[i].loss.value else 0))
  {
    if claims != [] {
      var earlier := claims[..|claims| - 1];
      ApprovedLossMeaning(earlier, syndication);
      var all := seq(|claims|, i requires 0 <= i < |claims| => Counted(claims[i], syndication));
      assert all == seq(|claims|, i requires 0 <= i < |claims| =>
                  if claims[i].syndication == syndication && (claims[i].status == APPROVED || claims[i].status == SETTLED) && claims[i].loss.Some?
                  then claims[i].loss.value else 0);
      assert all[..|earlier|] == seq(|earlier|, i requires 0 <= i < |earlier| =>
                  if earlier[i].syndication == syndication && (earlier[i].status == APPROVED || earlier[i].status == SETTLED) && earlier[i].loss.Some?
                  then earlier[i].loss.value else 0);
    }
  }

  // ---------------------------------------------------------------- steps

  function WithClaim(book: Book, id: nat, claim: Claim): Book
    requires id < |book.claims|
  {
    book.(claims := book.claims[id := claim])
  }

  /** `recordPayoutsAndAudit`, called after the claim itself has been written: an error leaves that write in place. */
  function RecordPayouts(ledger: Ledger, book: Book, id: nat): (r: (Book, ClaimOutcome))
    requires id < |book.claims|
    ensures r.0.claims == book.claims
  {
    var claim := book.claims[id];
    if claim.loss.None? then (book, Err(NoCalculatedLoss))
    else
      var allocations := if claim.syndication < |ledger.records| then ledger.records[claim.syndication].allocations else [];
      var payouts := ComputeClaimPayouts(claim.loss.value, allocations);
      if payouts.Err? then (book, Err(payouts.error))
      else (book.(payouts := book.payouts[id := payouts.value]), Ok(id))
  }

  function ReportStep(ledger: Ledger, book: Book, caller: string, syndication: nat): (Book, ClaimOutcome) {
    if syndication >= |ledger.records| then (book, Err(SyndicationNotFound))
    else if ledger.records[syndication].owner != caller then (book, Err(ClaimError.Unauthorised))
    else
      (book.(claims := book.claims + [Claim(syndication, caller, REPORTED, None, None, None)]), Ok(|book.claims|))
  }

  function AdvanceStep(ledger: Ledger, book: Book, id: nat, to: ClaimStatus): (Book, ClaimOutcome) {
    if id >= |book.claims| then (book, Err(ClaimNotFound))
    else
      var claim := book.claims[id];
      if !CanTransition(claim.status, to) then (book, Err(InvalidTransition))
      else if to == COVERAGE_CONFIRMED && claim.syndication >= |ledger.records| then (book, Err(SyndicationNotFound))
      else if to == COVERAGE_CONFIRMED && ledger.records[claim.syndication].status != Bound then
        (book, Err(SyndicationNotBound))
      else (WithClaim(book, id, claim.(status := to)), Ok(id))
  }

  function CalculateLossStep(ledger: Ledger, book: Book, id: nat, loss: nat, ceiling: nat): (Book, ClaimOutcome) {
    if id >= |book.claims| then (book, Err(ClaimNotFound))
    else
      var claim := book.claims[id];
      if !CanTransition(claim.status, LOSS_CALCULATED) then (book, Err(InvalidTransition))
      else if claim.syndication >= |ledger.records| then (book, Err(SyndicationNotFound))
      else
        var record := ledger.records[claim.syndication];
        var refused := RequireCoverage(record.status, record.capacity, ApprovedLoss(book.claims, claim.syndication), loss);
        if refused.Some? then (book, Err(refused.value))
        else
          var review := ClassifyReview(loss, ceiling);
          var next := if review == Auto then APPROVED else AWAITING_APPROVAL;
          var written := WithClaim(book, id, claim.(loss := Some(loss), review := Some(review), status := next));
          if review == Auto then RecordPayouts(ledger, written, id) else (written, Ok(id))
  }

  function DecideStep(ledger: Ledger, book: Book, id: nat, decision: Decision): (Book, ClaimOutcome) {
    if id >= |book.claims| then (book, Err(ClaimNotFound))
    else if book.claims[id].status != AWAITING_APPROVAL then (book, Err(NotAwaitingApproval))
    else
      var next := if decision == Approve then APPROVED else REJECTED;
      var written := WithClaim(book, id, book.claims[id].(decision := Some(decision), status := next));
      if decision == Approve then RecordPayouts(ledger, written, id) else (written, Ok(id))
  }

  function SettleStep(book: Book, id: nat): (Book, ClaimOutcome) {
    if id >= |book.claims| then (book, Err(ClaimNotFound))
    else if !CanTransition(book.claims[id].status, SETTLED) then (book, Err(InvalidTransition))
    else (WithClaim(book, id, book.claims[id].(status := SETTLED)), Ok(id))
  }

  function ClaimStep(ledger: Ledger, book: Book, c: ClaimCommand): (Book, ClaimOutcome) {
    match c
    case Report(caller, syndication) => ReportStep(ledger, book, caller, syndication)
    case Advance(id, to) => AdvanceStep(ledger, book, id, to)
    case CalculateLoss(id, loss, ceiling) => CalculateLossStep(ledger, book, id, loss, ceiling)
    case Decide(id, decision) => DecideStep(ledger, book, id, decision)
    case Settle(id) => SettleStep(book, id)
  }

  function Next(w: World, call: Call): (r: World)
    ensures |w.book.claims| <= |r.book.claims| <= |w.book.claims| + 1
  {
    match call
    case OnLedger(c) => w.(ledger := Step(w.ledger, c).0)
    case OnClaims(c) => w.(book := ClaimStep(w.ledger, w.book, c).0)
  }

  function RunWorld(w: World, calls: seq<Call>): World {
    if calls == [] then w else Next(RunWorld(w, calls[..|calls| - 1]), calls[|calls| - 1])
  }

  // ---------------------------------------------------------------- what one call may do to a claim

  /** A claim before and after one call: terms fixed, status only moving up, loss written at most once. */
  ghost predicate ClaimEvolves(before: Claim, after: Claim) {
    && after.syndication == before.syndication && after.owner == before.owner
    && (after.status != before.status ==> Rank(before.status) < Rank(after.status))
    && (before.loss.Some? ==> after.loss == before.loss && after.review == before.review)
    && (Paid(before.status) ==>
          Paid(after.status) && after.loss == before.loss && after.review == before.review && after.decision == before.decision)
  }

  /** A loss and its review are written together, and like a decision only by a call that moves the claim on. */
  ghost predicate WrittenInTime(claim: Claim) {
    && (claim.loss.Some? <==> claim.review.Some?)
    && (claim.loss.Some? ==> Rank(claim.status) >= 5)
    && (claim.decision.Some? ==> Rank(claim.status) >= 6)
  }

  lemma NextEvolves(w: World, call: Call, id: nat)
    requires id < |w.book.claims| && WrittenInTime(w.book.claims[id])
    ensures |w.book.claims| <= |Next(w, call).book.claims|
    ensures ClaimEvolves(w.book.claims[id], Next(w, call).book.claims[id])
    ensures WrittenInTime(Next(w, call).book.claims[id])
  {
    if call.OnClaims? {
      match call.claimCommand
      case Report(caller, syndication) =>
      case Advance(target, to) => AdvanceEvolves(w, target, to, id);
      case CalculateLoss(target, loss, ceiling) => CalculationEvolves(w, target, loss, ceiling, id);
      case Decide(target, decision) => DecisionEvolves(w, target, decision, id);
      case Settle(target) => ReplacedElsewhere(w, SettleStep(w.book, target).0, target, id);
    }
  }

  lemma AdvanceEvolves(w: World, target: nat, to: ClaimStatus, id: nat)
    requires id < |w.book.claims| && WrittenInTime(w.book.claims[id])
    ensures var after := AdvanceStep(w.ledger, w.book, target, to).0.claims;
            |after| == |w.book.claims| && ClaimEvolves(w.book.claims[id], after[id]) && WrittenInTime(after[id])
  {
    ReplacedElsewhere(w, AdvanceStep(w.ledger, w.book, target, to).0, target, id);
  }

  lemma CalculationEvolves(w: World, target: nat, loss: nat, ceiling: nat, id: nat)
    requires id < |w.book.claims| && WrittenInTime(w.book.claims[id])
    ensures var after := CalculateLossStep(w.ledger, w.book, target, loss, ceiling).0.claims;
            |after| == |w.book.claims| && ClaimEvolves(w.book.claims[id], after[id]) && WrittenInTime(after[id])
  {
    ReplacedElsewhere(w, CalculateLossStep(w.ledger, w.book, target, loss, ceiling).0, target, id);
  }

  lemma DecisionEvolves(w: World, target: nat, decision: Decision, id: nat)
    requires id < |w.book.claims| && WrittenInTime(w.book.claims[id])
    ensures var after := DecideStep(w.ledger, w.book, target, decision).0.claims;
            |after| == |w.book.claims| && ClaimEvolves(w.book.claims[id], after[id]) && WrittenInTime(after[id])
  {
    ReplacedElsewhere(w, DecideStep(w.ledger, w.book, target, decision).0, target, id);
  }

  lemma ReplacedElsewhere(w: World, after: Book, target: nat, id: nat)
    requires id < |w.book.claims| == |after.claims|
    requires target < |w.book.claims| ==> after.claims == w.book.claims[target := after.claims[target]]
    requires target >= |w.book.claims| ==> after == w.book
    ensures id != target ==> after.claims[id] == w.book.claims[id]
  {
  }

  /** 1 if the call changes the status of claim `id`, else 0. */
  function Changed(w: World, call: Call, id: nat): nat {
    if id < |w.book.claims| && w.book.claims[id].status != Next(w, call).book.claims[id].status then 1 else 0
  }

  function RankIn(w: World, id: nat): nat {
    if id < |w.book.claims| then Rank(w.book.claims[id].status) else 0
  }

  /** How often claim `id` has changed status. */
  function StatusChanges(calls: seq<Call>, id: nat): nat {
    if calls == [] then 0
    else
      var earlier := calls[..|calls| - 1];
      StatusChanges(earlier, id) + Changed(RunWorld(EMPTY_WORLD, earlier), calls[|calls| - 1], id)
  }
}
