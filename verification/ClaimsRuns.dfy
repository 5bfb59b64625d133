/** What every run of the claims service keeps: payouts, approvals and the length of a claim's life. */
module ClaimsRuns {
  import opened Prelude
  import opened Sequences
  import opened Syndication
  import opened SyndicationMachine
  import opened Claims
  import opened ClaimsMachine

  // ---------------------------------------------------------------- every run

  /** True in every reachable state, whatever targets `advance` is given. */
  ghost predicate Linked(w: World) {
    && Valid(w.ledger)
    && (forall id :: id in w.book.payouts ==> id < |w.book.claims|)
    && (forall id :: 0 <= id < |w.book.claims| ==> LinkedClaim(w.ledger, w.book.claims[id]))
  }

  /** From COVERAGE_CONFIRMED on, a claim's syndication is bound. */
  ghost predicate LinkedClaim(ledger: Ledger, claim: Claim) {
    && claim.syndication < |ledger.records|
    && WrittenInTime(claim)
    && (Rank(claim.status) >= 3 ==> ledger.records[claim.syndication].status == Bound)
  }

  /** A ledger call leaves bound records alone, so what was linked stays linked. */
  lemma LedgerCallKeepsClaims(w: World, c: Command)
    requires Linked(w)
    ensures forall id :: 0 <= id < |w.book.claims| ==> LinkedClaim(Step(w.ledger, c).0, w.book.claims[id])
    ensures forall id :: 0 <= id < |w.book.claims| && Rank(w.book.claims[id].status) >= 3 ==>
              Step(w.ledger, c).0.records[w.book.claims[id].syndication] == w.ledger.records[w.book.claims[id].syndication]
  {
    forall i | 0 <= i < |w.ledger.records|
      ensures i < |Step(w.ledger, c).0.records| && Evolves(w.ledger.records[i], Step(w.ledger, c).0.records[i])
    {
      StepEvolves(w.ledger, c, i);
    }
  }

  function Target(call: Call): Option<nat> {
    if call.OnLedger? then None
    else match call.claimCommand
      case Report(_, _) => None
      case Advance(id, _) => Some(id)
      case CalculateLoss(id, _, _) => Some(id)
      case Decide(id, _) => Some(id)
      case Settle(id) => Some(id)
  }

  lemma OthersUntouched(w: World, call: Call, target: nat)
    requires Target(call) == Some(target)
    ensures var after := Next(w, call).book;
            && |after.claims| == |w.book.claims|
            && (forall id :: 0 <= id < |after.claims| && id != target ==> after.claims[id] == w.book.claims[id])
            && (forall id: nat :: id != target ==> (id in after.payouts <==> id in w.book.payouts))
            && (forall id: nat :: id != target && id in after.payouts ==> after.payouts[id] == w.book.payouts[id])
            && (target >= |after.claims| ==> after == w.book)
  {
  }

  lemma TargetStaysLinked(w: World, call: Call, target: nat)
    requires target < |w.book.claims| && LinkedClaim(w.ledger, w.book.claims[target])
    requires Target(call) == Some(target)
    ensures LinkedClaim(w.ledger, Next(w, call).book.claims[target])
  {
    match call.claimCommand
    case Advance(_, to) =>
    case CalculateLoss(_, loss, ceiling) =>
    case Decide(_, decision) =>
    case Settle(_) =>
  }

  lemma ReportKeepsLinked(w: World, caller: string, syndication: nat)
    requires Linked(w)
    ensures Linked(Next(w, OnClaims(Report(caller, syndication))))
  {
    var after := Next(w, OnClaims(Report(caller, syndication)));
    forall id | 0 <= id < |after.book.claims| ensures LinkedClaim(w.ledger, after.book.claims[id]) {
      if id < |w.book.claims| {
        assert LinkedClaim(w.ledger, w.book.claims[id]);
      }
    }
  }

  lemma NextKeepsLinked(w: World, call: Call)
    requires Linked(w)
    ensures Linked(Next(w, call))
  {
    match call
    case OnLedger(c) =>
      StepKeepsValid(w.ledger, c);
      LedgerCallKeepsClaims(w, c);
    case OnClaims(Report(caller, syndication)) =>
      ReportKeepsLinked(w, caller, syndication);
    case OnClaims(_) =>
      var target := Target(call).value;
      OthersUntouched(w, call, target);
      if target < |w.book.claims| {
        assert LinkedClaim(w.ledger, w.book.claims[target]);
        TargetStaysLinked(w, call, target);
      }
      assert Next(w, call).ledger == w.ledger;
      forall id | 0 <= id < |w.book.claims| ensures LinkedClaim(w.ledger, Next(w, call).book.claims[id]) {
        assert LinkedClaim(w.ledger, w.book.claims[id]);
      }
  }

  lemma {:induction false} RunLinked(w: World, calls: seq<Call>)
    requires Linked(w)
    ensures Linked(RunWorld(w, calls))
  {
    if calls != [] {
      RunLinked(w, calls[..|calls| - 1]);
      NextKeepsLinked(RunWorld(w, calls[..|calls| - 1]), calls[|calls| - 1]);
    }
  }

  /** One call changes a claim's status at most once, and upwards. */
  lemma StatusRises(w: World, call: Call, id: nat)
    requires Linked(w)
    ensures RankIn(w, id) + Changed(w, call, id) <= RankIn(Next(w, call), id)
  {
    if id < |w.book.claims| {
      assert LinkedClaim(w.ledger, w.book.claims[id]);
      NextEvolves(w, call, id);
    }
  }

  lemma {:induction false} ChangesWithinRank(calls: seq<Call>, id: nat)
    ensures StatusChanges(calls, id) <= RankIn(RunWorld(EMPTY_WORLD, calls), id)
  {
    if calls != [] {
      var earlier, last := calls[..|calls| - 1], calls[|calls| - 1];
      ChangesWithinRank(earlier, id);
      RunLinked(EMPTY_WORLD, earlier);
      StatusRises(RunWorld(EMPTY_WORLD, earlier), last, id);
    }
  }

  lemma RanksEnd(w: World, id: nat)
    ensures RankIn(w, id) <= 7
  {
  }

  /** Every claim stops: over any run, however long, a claim changes status at most seven times. */
  lemma StatusChangesBounded(calls: seq<Call>, id: nat)
    ensures StatusChanges(calls, id) <= 7
  {
    ChangesWithinRank(calls, id);
    RanksEnd(RunWorld(EMPTY_WORLD, calls), id);
  }

  // ---------------------------------------------------------------- payouts if and only if paid

  ghost predicate PaidIffPayouts(w: World) {
    forall id :: 0 <= id < |w.book.claims| ==> (id in w.book.payouts <==> Paid(w.book.claims[id].status))
  }

  /**
   The calls that approve a claim without dividing its loss: a generic `advance` to APPROVED, or
   approving a claim that generic `advance` moved to AWAITING_APPROVAL without a loss.
   */
  predicate ApprovesUnpaid(w: World, call: Call) {
    && call.OnClaims?
    && match call.claimCommand
       case Advance(id, to) =>
         id < |w.book.claims| && to == APPROVED && CanTransition(w.book.claims[id].status, APPROVED)
       case Decide(id, decision) =>
         && id < |w.book.claims| && w.book.claims[id].status == AWAITING_APPROVAL
         && decision == Approve && w.book.claims[id].loss.None?
       case _ => false
  }

  /** A bound record can always divide a loss. */
  lemma BoundRecordPays(ledger: Ledger, syndication: nat, loss: nat)
    requires Valid(ledger) && syndication < |ledger.records| && ledger.records[syndication].status == Bound
    ensures ComputeClaimPayouts(loss, ledger.records[syndication].allocations).Ok?
  {
    var record := ledger.records[syndication];
    assert ValidRecord(record);
    assert Shares(record.allocations) != [];
  }

  lemma TargetPaidIffPayouts(w: World, call: Call, target: nat)
    requires Linked(w) && Target(call) == Some(target) && target < |w.book.claims|
    requires target in w.book.payouts <==> Paid(w.book.claims[target].status)
    ensures var after := Next(w, call).book;
            (target in after.payouts <==> Paid(after.claims[target].status)) <==> !ApprovesUnpaid(w, call)
  {
    assert LinkedClaim(w.ledger, w.book.claims[target]);
    match call.claimCommand
    case Advance(_, to) => AdvancePays(w, target, to);
    case CalculateLoss(_, loss, ceiling) => CalculationPays(w, target, loss, ceiling);
    case Decide(_, decision) => DecisionPays(w, target, decision);
    case Settle(_) =>
  }

  lemma AdvancePays(w: World, target: nat, to: ClaimStatus)
    requires target < |w.book.claims| && (target in w.book.payouts <==> Paid(w.book.claims[target].status))
    ensures var call := OnClaims(Advance(target, to));
            var after := Next(w, call).book;
            (target in after.payouts <==> Paid(after.claims[target].status)) <==> !ApprovesUnpaid(w, call)
  {
  }

  /** A claim whose loss has been calculated and stored. */
  function Calculated(claim: Claim, loss: nat, ceiling: nat): Claim {
    var review := ClassifyReview(loss, ceiling);
    claim.(loss := Some(loss), review := Some(review), status := if review == Auto then APPROVED else AWAITING_APPROVAL)
  }

  /** On a linked claim a loss calculation does nothing, or stores the loss and, below the ceiling, its division. */
  lemma CalculationEffect(w: World, target: nat, loss: nat, ceiling: nat)
    requires Valid(w.ledger) && target < |w.book.claims| && LinkedClaim(w.ledger, w.book.claims[target])
    ensures var claim := w.book.claims[target];
            var after := Next(w, OnClaims(CalculateLoss(target, loss, ceiling))).book;
            var payouts := ComputeClaimPayouts(loss, w.ledger.records[claim.syndication].allocations);
            || after == w.book
            || (&& claim.status == COVERAGE_CONFIRMED && payouts.Ok?
                && after.claims == w.book.claims[target := Calculated(claim, loss, ceiling)]
                && after.payouts == if loss <= ceiling then w.book.payouts[target := payouts.value] else w.book.payouts)
  {
    var claim := w.book.claims[target];
    var record := w.ledger.records[claim.syndication];
    if claim.status == COVERAGE_CONFIRMED
      && RequireCoverage(record.status, record.capacity, ApprovedLoss(w.book.claims, claim.syndication), loss).None? {
      CalculationAccepted(w, target, loss, ceiling);
      PayoutsRecorded(w.ledger, WithClaim(w.book, target, Calculated(claim, loss, ceiling)), target, loss);
    } else {
      CalculationRefused(w, target, loss, ceiling);
    }
  }

  lemma CalculationRefused(w: World, target: nat, loss: nat, ceiling: nat)
    requires target < |w.book.claims| && w.book.claims[target].syndication < |w.ledger.records|
    requires var claim := w.book.claims[target];
             var record := w.ledger.records[claim.syndication];
             claim.status == COVERAGE_CONFIRMED ==>
               RequireCoverage(record.status, record.capacity, ApprovedLoss(w.book.claims, claim.syndication), loss).Some?
    ensures Next(w, OnClaims(CalculateLoss(target, loss, ceiling))).book == w.book
  {
  }

  lemma CalculationAccepted(w: World, target: nat, loss: nat, ceiling: nat)
    requires target < |w.book.claims| && w.book.claims[target].syndication < |w.ledger.records|
    requires var claim := w.book.claims[target];
             var record := w.ledger.records[claim.syndication];
             && claim.status == COVERAGE_CONFIRMED
             && RequireCoverage(record.status, record.capacity, ApprovedLoss(w.book.claims, claim.syndication), loss).None?
    ensures var written := WithClaim(w.book, target, Calculated(w.book.claims[target], loss, ceiling));
            Next(w, OnClaims(CalculateLoss(target, loss, ceiling))).book
            == if loss <= ceiling then RecordPayouts(w.ledger, written, target).0 else written
  {
  }

  /** Against a bound record, a stored loss is always divided. */
  lemma PayoutsRecorded(ledger: Ledger, book: Book, id: nat, loss: nat)
    requires Valid(ledger) && id < |book.claims| && book.claims[id].loss == Some(loss)
    requires book.claims[id].syndication < |ledger.records| && ledger.records[book.claims[id].syndication].status == Bound
    ensures var payouts := ComputeClaimPayouts(loss, ledger.records[book.claims[id].syndication].allocations);
            payouts.Ok? && RecordPayouts(ledger, book, id) == (book.(payouts := book.payouts[id := payouts.value]), Ok(id))
  {
    BoundRecordPays(ledger, book.claims[id].syndication, loss);
  }

  lemma CalculationPays(w: World, target: nat, loss: nat, ceiling: nat)
    requires Valid(w.ledger) && target < |w.book.claims| && LinkedClaim(w.ledger, w.book.claims[target])
    requires target in w.book.payouts <==> Paid(w.book.claims[target].status)
    ensures var after := Next(w, OnClaims(CalculateLoss(target, loss, ceiling))).book;
            target in after.payouts <==> Paid(after.claims[target].status)
  {
    CalculationEffect(w, target, loss, ceiling);
  }

  lemma DecisionPays(w: World, target: nat, decision: Decision)
    requires Valid(w.ledger) && target < |w.book.claims| && LinkedClaim(w.ledger, w.book.claims[target])
    requires target in w.book.payouts <==> Paid(w.book.claims[target].status)
    ensures var call := OnClaims(Decide(target, decision));
            var after := Next(w, call).book;
            (target in after.payouts <==> Paid(after.claims[target].status)) <==> !ApprovesUnpaid(w, call)
  {
    if w.book.claims[target].status == AWAITING_APPROVAL && w.book.claims[target].loss.Some? {
      BoundRecordPays(w.ledger, w.book.claims[target].syndication, w.book.claims[target].loss.value);
    }
  }

  /** Exactly which calls break "payouts if and only if approved or settled". */
  lemma PaidIffPayoutsStep(w: World, call: Call)
    requires Linked(w) && PaidIffPayouts(w)
    ensures PaidIffPayouts(Next(w, call)) <==> !ApprovesUnpaid(w, call)
  {
    if Target(call).Some? {
      var target := Target(call).value;
      OthersUntouched(w, call, target);
      if target < |w.book.claims| {
        TargetPaidIffPayouts(w, call, target);
      }
    }
  }

  // ---------------------------------------------------------------- prefixes of a run

  /** The world after the first `t` calls. */
  function At(calls: seq<Call>, t: nat): World
    requires t <= |calls|
  {
    RunWorld(EMPTY_WORLD, calls[..t])
  }

  lemma RunWorldSnoc(w: World, calls: seq<Call>, k: nat)
    requires k < |calls|
    ensures RunWorld(w, calls[..k + 1]) == Next(RunWorld(w, calls[..k]), calls[k])
  {
    assert calls[..k + 1][..k] == calls[..k];
  }

  lemma AtNext(calls: seq<Call>, t: nat)
    requires t < |calls|
    ensures At(calls, t + 1) == Next(At(calls, t), calls[t])
    ensures Linked(At(calls, t))
  {
    RunWorldSnoc(EMPTY_WORLD, calls, t);
    RunLinked(EMPTY_WORLD, calls[..t]);
  }

  /** A claim approved without payouts stays that way. */
  lemma UnpaidStays(w: World, call: Call, id: nat)
    requires id < |w.book.claims| && WrittenInTime(w.book.claims[id])
    requires Paid(w.book.claims[id].status) && id !in w.book.payouts
    ensures id < |Next(w, call).book.claims| && Paid(Next(w, call).book.claims[id].status)
    ensures id !in Next(w, call).book.payouts
  {
    NextEvolves(w, call, id);
    NoPayoutsForPaid(w, call, id);
  }

  /** No call divides the loss of a claim that is already approved. */
  lemma NoPayoutsForPaid(w: World, call: Call, id: nat)
    requires id < |w.book.claims| && Paid(w.book.claims[id].status) && id !in w.book.payouts
    ensures id !in Next(w, call).book.payouts
  {
    if Target(call) == Some(id) {
      OwnPayoutsStay(w, call, id);
    } else if Target(call).Some? {
      OthersUntouched(w, call, Target(call).value);
    }
  }

  lemma OwnPayoutsStay(w: World, call: Call, id: nat)
    requires Target(call) == Some(id) && id < |w.book.claims| && Paid(w.book.claims[id].status)
    ensures Next(w, call).book.payouts == w.book.payouts
  {
    match call.claimCommand
    case Advance(_, to) =>
    case CalculateLoss(_, loss, ceiling) => CalculatedTooLate(w, id, loss, ceiling);
    case Decide(_, decision) => DecidedTooLate(w, id, decision);
    case Settle(_) =>
  }

  lemma CalculatedTooLate(w: World, id: nat, loss: nat, ceiling: nat)
    requires id < |w.book.claims| && Paid(w.book.claims[id].status)
    ensures Next(w, OnClaims(CalculateLoss(id, loss, ceiling))) == w
  {
  }

  lemma DecidedTooLate(w: World, id: nat, decision: Decision)
    requires id < |w.book.claims| && Paid(w.book.claims[id].status)
    ensures Next(w, OnClaims(Decide(id, decision))) == w
  {
  }

  ghost predicate PaymentsOwed(w: World) {
    forall id :: id in w.book.payouts ==> id < |w.book.claims| && Paid(w.book.claims[id].status)
  }

  /** The call's own claim is recorded as paid only when it is. */
  lemma TargetOwed(w: World, call: Call, target: nat)
    requires Target(call) == Some(target) && target < |w.book.claims|
    requires target in w.book.payouts ==> Paid(w.book.claims[target].status)
    ensures target in Next(w, call).book.payouts ==> Paid(Next(w, call).book.claims[target].status)
  {
    match call.claimCommand
    case CalculateLoss(_, loss, ceiling) =>
    case Decide(_, decision) =>
    case _ =>
  }

  lemma NextKeepsPaymentsOwed(w: World, call: Call)
    requires Linked(w) && PaymentsOwed(w)
    ensures PaymentsOwed(Next(w, call))
  {
    if Target(call).Some? {
      var target := Target(call).value;
      OthersUntouched(w, call, target);
      if target < |w.book.claims| {
        TargetOwed(w, call, target);
      }
    }
  }

  /** After a call, payouts match approvals exactly if they did before and the call was not one of those. */
  lemma PaidIffPayoutsNext(w: World, call: Call)
    requires Linked(w) && PaymentsOwed(w)
    ensures PaidIffPayouts(Next(w, call)) <==> PaidIffPayouts(w) && !ApprovesUnpaid(w, call)
  {
    if PaidIffPayouts(w) {
      PaidIffPayoutsStep(w, call);
    } else {
      var id :| 0 <= id < |w.book.claims| && !(id in w.book.payouts <==> Paid(w.book.claims[id].status));
      assert LinkedClaim(w.ledger, w.book.claims[id]);
      UnpaidStays(w, call, id);
    }
  }

  /**
   The exact condition over runs: at the end every approved or settled claim has payouts, and no other
   claim does, if and only if no call ever approved a claim without dividing its loss.
   */
  lemma PaidIffNeverApprovedUnpaid(calls: seq<Call>)
    ensures PaidIffPayouts(RunWorld(EMPTY_WORLD, calls)) <==> forall t :: 0 <= t < |calls| ==> !ApprovesUnpaidAt(calls, t)
  {
    var good := seq(|calls| + 1, t requires 0 <= t <= |calls| => PaidIffPayouts(At(calls, t)));
    var breaks := seq(|calls|, t requires 0 <= t < |calls| => ApprovesUnpaidAt(calls, t));
    forall t | 0 <= t < |calls| ensures good[t + 1] <==> good[t] && !breaks[t] {
      PaidIffPayoutsAt(calls, t);
    }
    BrokenForGood(good, breaks);
    assert calls[..|calls|] == calls;
    assert forall t :: 0 <= t < |calls| ==> (breaks[t] <==> ApprovesUnpaidAt(calls, t));
  }

  ghost predicate ApprovesUnpaidAt(calls: seq<Call>, t: nat)
    requires t < |calls|
  {
    ApprovesUnpaid(At(calls, t), calls[t])
  }

  lemma {:induction false} RunOwed(calls: seq<Call>)
    ensures PaymentsOwed(RunWorld(EMPTY_WORLD, calls))
  {
    if calls != [] {
      var earlier := calls[..|calls| - 1];
      RunOwed(earlier);
      RunLinked(EMPTY_WORLD, earlier);
      NextKeepsPaymentsOwed(RunWorld(EMPTY_WORLD, earlier), calls[|calls| - 1]);
    }
  }

  lemma PaidIffPayoutsAt(calls: seq<Call>, t: nat)
    requires t < |calls|
    ensures PaidIffPayouts(At(calls, t + 1)) <==> PaidIffPayouts(At(calls, t)) && !ApprovesUnpaidAt(calls, t)
  {
    AtNext(calls, t);
    RunOwed(calls[..t]);
    PaidIffPayoutsNext(At(calls, t), calls[t]);
  }

  // ---------------------------------------------------------------- recorded approvals

  /** Every approved or settled claim that needed human review carries a recorded approval. */
  ghost predicate ApprovalsRecorded(w: World) {
    forall id :: 0 <= id < |w.book.claims| ==> ApprovalRecorded(w.book.claims[id])
  }

  predicate ApprovalRecorded(claim: Claim) {
    Paid(claim.status) && claim.review == Some(HumanReview) ==> claim.decision == Some(Approve)
  }

  /** The call that approves a claim awaiting approval without deciding it: a generic `advance` to APPROVED. */
  predicate SkipsApproval(w: World, call: Call) {
    && call.OnClaims? && call.claimCommand.Advance? && call.claimCommand.to == APPROVED
    && call.claimCommand.id < |w.book.claims|
    && w.book.claims[call.claimCommand.id].status == AWAITING_APPROVAL
    && w.book.claims[call.claimCommand.id].review == Some(HumanReview)
  }

  lemma TargetApprovalRecorded(w: World, call: Call, target: nat)
    requires Target(call) == Some(target) && target < |w.book.claims|
    requires WrittenInTime(w.book.claims[target]) && ApprovalRecorded(w.book.claims[target])
    ensures ApprovalRecorded(Next(w, call).book.claims[target]) <==> !SkipsApproval(w, call)
  {
    match call.claimCommand
    case Advance(_, to) =>
    case CalculateLoss(_, loss, ceiling) =>
    case Decide(_, decision) =>
    case Settle(_) =>
  }

  lemma NewClaimsUnpaid(w: World, call: Call, id: nat)
    requires Target(call).None? && id < |Next(w, call).book.claims|
    ensures if id < |w.book.claims| then Next(w, call).book.claims[id] == w.book.claims[id]
            else !Paid(Next(w, call).book.claims[id].status)
  {
  }

  /** A claim approved without a record stays that way. */
  lemma UnrecordedStays(w: World, call: Call, id: nat)
    requires id < |w.book.claims| && WrittenInTime(w.book.claims[id]) && !ApprovalRecorded(w.book.claims[id])
    ensures id < |Next(w, call).book.claims| && !ApprovalRecorded(Next(w, call).book.claims[id])
  {
    NextEvolves(w, call, id);
  }

  /** After a call, approvals are recorded exactly if they were before and the call did not skip one. */
  lemma ApprovalsRecordedNext(w: World, call: Call)
    requires Linked(w)
    ensures ApprovalsRecorded(Next(w, call)) <==> ApprovalsRecorded(w) && !SkipsApproval(w, call)
  {
    if !ApprovalsRecorded(w) {
      var id :| 0 <= id < |w.book.claims| && !ApprovalRecorded(w.book.claims[id]);
      assert LinkedClaim(w.ledger, w.book.claims[id]);
      UnrecordedStays(w, call, id);
    } else if Target(call).None? {
      forall id | 0 <= id < |Next(w, call).book.claims| ensures ApprovalRecorded(Next(w, call).book.claims[id]) {
        NewClaimsUnpaid(w, call, id);
      }
    } else {
      var target := Target(call).value;
      OthersUntouched(w, call, target);
      if target < |w.book.claims| {
        assert LinkedClaim(w.ledger, w.book.claims[target]);
        TargetApprovalRecorded(w, call, target);
      }
    }
  }

  ghost predicate SkipsApprovalAt(calls: seq<Call>, t: nat)
    requires t < |calls|
  {
    SkipsApproval(At(calls, t), calls[t])
  }

  lemma ApprovalsRecordedAt(calls: seq<Call>, t: nat)
    requires t < |calls|
    ensures ApprovalsRecorded(At(calls, t + 1)) <==> ApprovalsRecorded(At(calls, t)) && !SkipsApprovalAt(calls, t)
  {
    AtNext(calls, t);
    ApprovalsRecordedNext(At(calls, t), calls[t]);
  }

  /**
   The exact condition over runs, whatever targets `advance` is given: every approved or settled claim
   that needed review carries a recorded approval, if and only if no call ever skipped one.
   */
  lemma RecordedIffNeverSkipped(calls: seq<Call>)
    ensures ApprovalsRecorded(RunWorld(EMPTY_WORLD, calls)) <==> forall t :: 0 <= t < |calls| ==> !SkipsApprovalAt(calls, t)
  {
    var good := seq(|calls| + 1, t requires 0 <= t <= |calls| => ApprovalsRecorded(At(calls, t)));
    var breaks := seq(|calls|, t requires 0 <= t < |calls| => SkipsApprovalAt(calls, t));
    forall t | 0 <= t < |calls| ensures good[t + 1] <==> good[t] && !breaks[t] {
      ApprovalsRecordedAt(calls, t);
    }
    BrokenForGood(good, breaks);
    assert calls[..|calls|] == calls;
    assert forall t :: 0 <= t < |calls| ==> (breaks[t] <==> SkipsApprovalAt(calls, t));
  }

  /** A claim keeps its loss and its review once they are written. */
  lemma {:induction false} LossStays(calls: seq<Call>, id: nat, a: nat, b: nat)
    requires a <= b <= |calls| && id < |At(calls, a).book.claims| && At(calls, a).book.claims[id].loss.Some?
    ensures id < |At(calls, b).book.claims|
    ensures At(calls, b).book.claims[id].loss == At(calls, a).book.claims[id].loss
    ensures At(calls, b).book.claims[id].review == At(calls, a).book.claims[id].review
    decreases b - a
  {
    if a < b {
      AtNext(calls, a);
      assert LinkedClaim(At(calls, a).ledger, At(calls, a).book.claims[id]);
      NextEvolves(At(calls, a), calls[a], id);
      LossStays(calls, id, a + 1, b);
    }
  }

  /** An accepted loss calculation writes the loss, and the review its own ceiling asks for. */
  lemma CalculationWrites(w: World, id: nat, loss: nat, ceiling: nat)
    requires CalculateLossStep(w.ledger, w.book, id, loss, ceiling).1.Ok?
    ensures id < |w.book.claims|
    ensures var claim := Next(w, OnClaims(CalculateLoss(id, loss, ceiling))).book.claims[id];
            claim.loss == Some(loss) && claim.review == Some(ClassifyReview(loss, ceiling))
  {
  }

  /**
   A loss above the ceiling it was calculated under: in any run in which no call skipped an approval,
   whatever ceilings other calculations used, the claim is approved only by a recorded decision.
   */
  lemma AboveCeilingNeedsApproval(calls: seq<Call>, t: nat, id: nat, loss: nat, ceiling: nat)
    requires t < |calls| && calls[t] == OnClaims(CalculateLoss(id, loss, ceiling)) && ceiling < loss
    requires CalculateLossStep(At(calls, t).ledger, At(calls, t).book, id, loss, ceiling).1.Ok?
    requires forall u :: 0 <= u < |calls| ==> !SkipsApprovalAt(calls, u)
    ensures id < |RunWorld(EMPTY_WORLD, calls).book.claims|
    ensures var claim := RunWorld(EMPTY_WORLD, calls).book.claims[id];
            claim.loss == Some(loss) && (Paid(claim.status) ==> claim.decision == Some(Approve))
  {
    CalculationWrites(At(calls, t), id, loss, ceiling);
    AtNext(calls, t);
    LossStays(calls, id, t + 1, |calls|);
    RecordedIffNeverSkipped(calls);
    assert calls[..|calls|] == calls;
    assert ApprovalRecorded(At(calls, |calls|).book.claims[id]);
  }

  // ---------------------------------------------------------------- documented runs

  /** `advance` is used for its three documented targets only. */
  predicate Documented(call: Call) {
    call.OnClaims? && call.claimCommand.Advance? ==> call.claimCommand.to in {EVIDENCE_COLLECTED, VERIFIED, COVERAGE_CONFIRMED}
  }

  /** Everything but a generic `advance` past COVERAGE_CONFIRMED is documented. */
  lemma DocumentedMeaning(call: Call, id: nat, to: ClaimStatus)
    ensures call == OnClaims(Advance(id, to)) ==> (Documented(call) <==> to == EVIDENCE_COLLECTED || to == VERIFIED || to == COVERAGE_CONFIRMED)
    ensures call.OnLedger? || !call.claimCommand.Advance? ==> Documented(call)
  {
  }

  /**
   A claim between calls. Before the loss is calculated nothing is recorded; an approved or settled
   claim has exactly the division of its loss as payouts, and if it needed review, a recorded approval.
   */
  ghost predicate SoundClaim(w: World, id: nat)
    requires id < |w.book.claims|
  {
    var claim := w.book.claims[id];
    && (id in w.book.payouts <==> Paid(claim.status))
    && match claim.status
       case AWAITING_APPROVAL => claim.loss.Some? && claim.review == Some(HumanReview) && claim.decision == None
       case REJECTED => claim.loss.Some? && claim.review == Some(HumanReview) && claim.decision == Some(Reject)
       case LOSS_CALCULATED => false
       case APPROVED => SoundPaidClaim(w, id)
       case SETTLED => SoundPaidClaim(w, id)
       case _ => claim.loss == None && claim.review == None && claim.decision == None
  }

  ghost predicate SoundPaidClaim(w: World, id: nat)
    requires id < |w.book.claims|
  {
    var claim := w.book.claims[id];
    && claim.loss.Some? && id in w.book.payouts
    && claim.decision == (if claim.review == Some(HumanReview) then Some(Approve) else None)
    && claim.syndication < |w.ledger.records|
    && ComputeClaimPayouts(claim.loss.value, w.ledger.records[claim.syndication].allocations) == Ok(w.book.payouts[id])
  }

  ghost predicate Sound(w: World) {
    forall id :: 0 <= id < |w.book.claims| ==> SoundClaim(w, id)
  }

  lemma LedgerCallKeepsSound(w: World, c: Command)
    requires Linked(w) && Sound(w)
    ensures Sound(Next(w, OnLedger(c)))
  {
    LedgerCallKeepsClaims(w, c);
    forall id | 0 <= id < |w.book.claims| ensures SoundClaim(Next(w, OnLedger(c)), id) {
      assert SoundClaim(w, id) && LinkedClaim(w.ledger, w.book.claims[id]);
    }
  }

  lemma ReportKeepsSound(w: World, caller: string, syndication: nat)
    requires Linked(w) && Sound(w)
    ensures Sound(Next(w, OnClaims(Report(caller, syndication))))
  {
    var after := Next(w, OnClaims(Report(caller, syndication)));
    forall id | 0 <= id < |after.book.claims| ensures SoundClaim(after, id) {
      assert id < |w.book.claims| ==> SoundClaim(w, id);
    }
  }

  lemma TargetedCallKeepsSound(w: World, call: Call, target: nat)
    requires Linked(w) && Sound(w) && Documented(call) && Target(call) == Some(target)
    ensures Sound(Next(w, call))
  {
    OthersUntouched(w, call, target);
    if target < |w.book.claims| {
      TargetStaysSound(w, call, target);
    }
    forall id | 0 <= id < |w.book.claims| ensures SoundClaim(Next(w, call), id) {
      assert SoundClaim(w, id);
    }
  }

  lemma NextKeepsSound(w: World, call: Call)
    requires Linked(w) && Sound(w) && Documented(call)
    ensures Sound(Next(w, call))
  {
    match call
    case OnLedger(c) => LedgerCallKeepsSound(w, c);
    case OnClaims(Report(caller, syndication)) => ReportKeepsSound(w, caller, syndication);
    case OnClaims(_) => TargetedCallKeepsSound(w, call, Target(call).value);
  }

  lemma TargetStaysSound(w: World, call: Call, target: nat)
    requires Linked(w) && Sound(w) && Documented(call)
    requires Target(call) == Some(target) && target < |w.book.claims|
    ensures target < |Next(w, call).book.claims| && SoundClaim(Next(w, call), target)
  {
    assert SoundClaim(w, target) && LinkedClaim(w.ledger, w.book.claims[target]);
    match call.claimCommand
    case Advance(_, to) => AdvanceStaysSound(w, target, to);
    case CalculateLoss(_, loss, ceiling) => CalculationStaysSound(w, target, loss, ceiling);
    case Decide(_, decision) => DecisionStaysSound(w, target, decision);
    case Settle(_) => SettlementStaysSound(w, target);
  }

  lemma AdvanceStaysSound(w: World, target: nat, to: ClaimStatus)
    requires target < |w.book.claims| && SoundClaim(w, target) && Documented(OnClaims(Advance(target, to)))
    ensures SoundClaim(Next(w, OnClaims(Advance(target, to))), target)
  {
  }

  lemma SettlementStaysSound(w: World, target: nat)
    requires target < |w.book.claims| && SoundClaim(w, target)
    ensures SoundClaim(Next(w, OnClaims(Settle(target))), target)
  {
  }

  lemma CalculationStaysSound(w: World, target: nat, loss: nat, ceiling: nat)
    requires Valid(w.ledger) && target < |w.book.claims| && SoundClaim(w, target)
    requires LinkedClaim(w.ledger, w.book.claims[target])
    ensures SoundClaim(Next(w, OnClaims(CalculateLoss(target, loss, ceiling))), target)
  {
    CalculationEffect(w, target, loss, ceiling);
    assert Next(w, OnClaims(CalculateLoss(target, loss, ceiling))).ledger == w.ledger;
  }

  lemma DecisionStaysSound(w: World, target: nat, decision: Decision)
    requires Valid(w.ledger) && target < |w.book.claims| && SoundClaim(w, target)
    requires LinkedClaim(w.ledger, w.book.claims[target])
    ensures SoundClaim(Next(w, OnClaims(Decide(target, decision))), target)
  {
    if w.book.claims[target].status == AWAITING_APPROVAL {
      BoundRecordPays(w.ledger, w.book.claims[target].syndication, w.book.claims[target].loss.value);
    }
  }

  /**
   Claims run invariant: after any documented run, a claim has payouts exactly when it is approved or
   settled, they add up to its loss, and one that needed review got there through a recorded approval.
   */
  lemma {:induction false} RunSound(calls: seq<Call>)
    requires forall i :: 0 <= i < |calls| ==> Documented(calls[i])
    ensures Sound(RunWorld(EMPTY_WORLD, calls))
  {
    if calls != [] {
      var earlier := calls[..|calls| - 1];
      RunSound(earlier);
      RunLinked(EMPTY_WORLD, earlier);
      NextKeepsSound(RunWorld(EMPTY_WORLD, earlier), calls[|calls| - 1]);
    }
  }

  lemma PayoutsEqualLosses(calls: seq<Call>, id: nat)
    requires forall i :: 0 <= i < |calls| ==> Documented(calls[i])
    requires id < |RunWorld(EMPTY_WORLD, calls).book.claims|
    ensures var w := RunWorld(EMPTY_WORLD, calls);
            var claim := w.book.claims[id];
            && (id in w.book.payouts <==> Paid(claim.status))
            && (Paid(claim.status) ==>
                  && claim.loss.Some?
                  && Sum(PayoutAmounts(w.book.payouts[id])) == claim.loss.value
                  && (claim.review == Some(HumanReview) ==> claim.decision == Some(Approve)))
  {
    RunSound(calls);
    var w := RunWorld(EMPTY_WORLD, calls);
    var claim := w.book.claims[id];
    assert SoundClaim(w, id);
    if Paid(claim.status) {
      PayoutsAreExact(claim.loss.value, w.ledger.records[claim.syndication].allocations);
    }
  }

  // ---------------------------------------------------------------- the undocumented path

  /** Report a claim, then take it to APPROVED by `advance` alone. */
  function UnpaidApproval(owner: string, syndication: nat, id: nat): seq<Call> {
    [OnClaims(Report(owner, syndication)), OnClaims(Advance(id, EVIDENCE_COLLECTED)), OnClaims(Advance(id, VERIFIED)),
     OnClaims(Advance(id, COVERAGE_CONFIRMED)), OnClaims(Advance(id, LOSS_CALCULATED)), OnClaims(Advance(id, APPROVED))]
  }

  /** The world after the first `k` calls of that run. */
  function UnpaidWorld(w: World, owner: string, syndication: nat, k: nat): World
    requires k <= 6
  {
    var path := [REPORTED, EVIDENCE_COLLECTED, VERIFIED, COVERAGE_CONFIRMED, LOSS_CALCULATED, APPROVED];
    if k == 0 then w
    else w.(book := w.book.(claims := w.book.claims + [Claim(syndication, owner, path[k - 1], None, None, None)]))
  }

  lemma UnpaidCall(w: World, syndication: nat, k: nat)
    requires k < 6 && syndication < |w.ledger.records| && w.ledger.records[syndication].status == Bound
    ensures var owner := w.ledger.records[syndication].owner;
            var call := UnpaidApproval(owner, syndication, |w.book.claims|)[k];
            Next(UnpaidWorld(w, owner, syndication, k), call) == UnpaidWorld(w, owner, syndication, k + 1)
  {
    var owner, id := w.ledger.records[syndication].owner, |w.book.claims|;
    var before, after := UnpaidWorld(w, owner, syndication, k), UnpaidWorld(w, owner, syndication, k + 1);
    if k > 0 {
      assert before.book.claims[id := after.book.claims[id]] == after.book.claims;
    }
  }

  /** The documented restriction is needed: on any bound syndication, `advance` alone approves a claim with neither loss nor payouts. */
  lemma AdvanceAloneApprovesUnpaid(w: World, syndication: nat)
    requires Linked(w) && syndication < |w.ledger.records| && w.ledger.records[syndication].status == Bound
    ensures var id := |w.book.claims|;
            var after := RunWorld(w, UnpaidApproval(w.ledger.records[syndication].owner, syndication, id));
            && |after.book.claims| == id + 1
            && after.book.claims[id].status == APPROVED && after.book.claims[id].loss == None
            && id !in after.book.payouts
  {
    var id, owner := |w.book.claims|, w.ledger.records[syndication].owner;
    var calls := UnpaidApproval(owner, syndication, id);
    for k := 0 to 6
      invariant RunWorld(w, calls[..k]) == UnpaidWorld(w, owner, syndication, k)
    {
      RunWorldSnoc(w, calls, k);
      UnpaidCall(w, syndication, k);
    }
    assert calls[..6] == calls;
  }
}
