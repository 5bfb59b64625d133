/** Coverage over whole runs, and a two-claim run showing that its hypothesis is needed. */
module CoverageRuns {
  import opened Prelude
  import opened Sequences
  import opened Syndication
  import opened Claims
  import opened ClaimsMachine
  import opened ClaimsRuns
  import opened Coverage

  ghost predicate ApprovedAt(calls: seq<Call>, e: nat, t: nat) {
    t < |calls| && Approves(At(calls, t), At(calls, t + 1), e)
  }

  /** Call `t` calculates the loss of claim `d`. */
  ghost predicate LossSetAt(calls: seq<Call>, d: nat, t: nat) {
    && t < |calls| && d < |At(calls, t).book.claims| <= |At(calls, t + 1).book.claims|
    && At(calls, t).book.claims[d].loss.None? && At(calls, t + 1).book.claims[d].loss.Some?
  }

  /** No claim is approved on a syndication between another claim's loss calculation there and its approval. */
  ghost predicate Serial(calls: seq<Call>) {
    forall d: nat, e: nat, j: nat, t: nat, i: nat ::
      j < t < i && LossSetAt(calls, d, j) && ApprovedAt(calls, d, i) && ApprovedAt(calls, e, t) ==>
        e == d || At(calls, t).book.claims[e].syndication != At(calls, i).book.claims[d].syndication
  }

  /** A claim keeps its syndication, and once approved stays approved. */
  lemma {:induction false} ClaimOverTime(calls: seq<Call>, d: nat, a: nat, b: nat)
    requires a <= b <= |calls| && d < |At(calls, a).book.claims|
    ensures d < |At(calls, b).book.claims|
    ensures At(calls, b).book.claims[d].syndication == At(calls, a).book.claims[d].syndication
    ensures Paid(At(calls, a).book.claims[d].status) ==> Paid(At(calls, b).book.claims[d].status)
    decreases b - a
  {
    if a < b {
      AtNext(calls, a);
      assert LinkedClaim(At(calls, a).ledger, At(calls, a).book.claims[d]);
      NextEvolves(At(calls, a), calls[a], d);
      ClaimOverTime(calls, d, a + 1, b);
    }
  }

  /** While nothing is approved on a syndication its running total stands still. */
  lemma {:induction false} QuietTotal(calls: seq<Call>, k: nat, a: nat, b: nat)
    requires a <= b <= |calls|
    requires forall e: nat, t: nat :: a <= t < b && ApprovedAt(calls, e, t) ==> At(calls, t).book.claims[e].syndication != k
    ensures ApprovedLoss(At(calls, a).book.claims, k) == ApprovedLoss(At(calls, b).book.claims, k)
    decreases b - a
  {
    if a < b {
      AtNext(calls, a);
      forall e: nat | Approves(At(calls, a), Next(At(calls, a), calls[a]), e)
        ensures At(calls, a).book.claims[e].syndication != k
      {
        assert ApprovedAt(calls, e, a);
      }
      NextApprovedLoss(At(calls, a), calls[a], k);
      QuietTotal(calls, k, a + 1, b);
    }
  }

  /** Claim `d`, if its loss is set and it is not yet approved, passed the coverage test at call `j`. */
  ghost predicate Tested(calls: seq<Call>, n: nat, d: nat, j: nat)
    requires n <= |calls| && d < |At(calls, n).book.claims|
  {
    var claim := At(calls, n).book.claims[d];
    && j < n && LossSetAt(calls, d, j) && claim.loss.Some?
    && claim.syndication < |At(calls, n).ledger.records|
    && ApprovedLoss(At(calls, j + 1).book.claims, claim.syndication) + claim.loss.value
       <= At(calls, n).ledger.records[claim.syndication].capacity
  }

  ghost predicate OnceTested(calls: seq<Call>, n: nat, d: nat)
    requires n <= |calls| && d < |At(calls, n).book.claims|
  {
    exists j: nat :: Tested(calls, n, d, j)
  }

  ghost predicate Pending(claim: Claim) {
    claim.loss.Some? && !Paid(claim.status)
  }

  ghost predicate PendingTested(calls: seq<Call>, n: nat)
    requires n <= |calls|
  {
    forall d :: 0 <= d < |At(calls, n).book.claims| && Pending(At(calls, n).book.claims[d]) ==> OnceTested(calls, n, d)
  }

  /** In a serial run nothing is approved on a claim's syndication between its test and its approval. */
  lemma QuietUntilApproval(calls: seq<Call>, n: nat, d: nat, j: nat)
    requires Serial(calls) && ApprovedAt(calls, d, n) && LossSetAt(calls, d, j) && j < n
    ensures forall e: nat, t: nat :: j + 1 <= t < n && ApprovedAt(calls, e, t) ==>
              At(calls, t).book.claims[e].syndication != At(calls, n).book.claims[d].syndication
  {
    forall e: nat, t: nat | j + 1 <= t < n && ApprovedAt(calls, e, t)
      ensures At(calls, t).book.claims[e].syndication != At(calls, n).book.claims[d].syndication
    {
      if e == d {
        ClaimOverTime(calls, d, t + 1, n);
      }
    }
  }

  /** The total a claim was tested against is still the total when a serial run approves it. */
  lemma TestStillHolds(calls: seq<Call>, n: nat, d: nat, j: nat)
    requires Serial(calls) && n < |calls| && ApprovedAt(calls, d, n) && Tested(calls, n, d, j)
    ensures var claim := At(calls, n).book.claims[d];
            ApprovedLoss(At(calls, n).book.claims, claim.syndication) + claim.loss.value
            <= At(calls, n).ledger.records[claim.syndication].capacity
  {
    QuietUntilApproval(calls, n, d, j);
    QuietTotal(calls, At(calls, n).book.claims[d].syndication, j + 1, n);
  }

  lemma NotOverdrawn(calls: seq<Call>, n: nat)
    requires Serial(calls) && n < |calls| && PendingTested(calls, n)
    ensures !Overdraws(At(calls, n), calls[n])
  {
    AtNext(calls, n);
    if Target(calls[n]).Some? && WouldApprove(At(calls, n), calls[n], Target(calls[n]).value) {
      var d := Target(calls[n]).value;
      WaysToApprove(At(calls, n), calls[n], d);
      assert ApprovedAt(calls, d, n);
      if At(calls, n).book.claims[d].loss.Some? {
        assert OnceTested(calls, n, d);
        var j: nat :| Tested(calls, n, d, j);
        TestStillHolds(calls, n, d, j);
      }
    }
  }

  /** A newly reported claim has no loss, so a pending one was there before. */
  lemma PendingWasThere(w: World, call: Call, d: nat)
    requires d < |Next(w, call).book.claims| && Pending(Next(w, call).book.claims[d])
    ensures d < |w.book.claims|
  {
    if Target(call).Some? {
      OthersUntouched(w, call, Target(call).value);
    }
  }

  /** A loss is first stored by a coverage test that passed against the total at that moment. */
  lemma LossSetter(w: World, call: Call, d: nat)
    requires d < |w.book.claims| && w.book.claims[d].loss.None? && Next(w, call).book.claims[d].loss.Some?
    requires w.book.claims[d].syndication < |w.ledger.records|
    ensures Target(call) == Some(d)
    ensures ApprovedLoss(w.book.claims, w.book.claims[d].syndication) + Next(w, call).book.claims[d].loss.value
         <= w.ledger.records[w.book.claims[d].syndication].capacity
  {
    if Target(call).Some? {
      OthersUntouched(w, call, Target(call).value);
      if Target(call) == Some(d) {
        LossSetByTarget(w, call, d);
      }
    }
  }

  lemma LossSetByTarget(w: World, call: Call, d: nat)
    requires d < |w.book.claims| && Target(call) == Some(d) && w.book.claims[d].loss.None?
    requires w.book.claims[d].syndication < |w.ledger.records|
    ensures var claim, after := w.book.claims[d], Next(w, call).book.claims[d];
            after.loss.Some? ==>
              ApprovedLoss(w.book.claims, claim.syndication) + after.loss.value <= w.ledger.records[claim.syndication].capacity
  {
    match call.claimCommand
    case CalculateLoss(_, loss, ceiling) =>
    case _ =>
  }

  /** A claim calculated by this call has just been tested. */
  lemma JustTested(calls: seq<Call>, n: nat, d: nat)
    requires n < |calls| && d < |At(calls, n).book.claims| && At(calls, n).book.claims[d].loss.None?
    requires d < |At(calls, n + 1).book.claims| && Pending(At(calls, n + 1).book.claims[d])
    ensures Tested(calls, n + 1, d, n)
  {
    AtNext(calls, n);
    var w := At(calls, n);
    assert LinkedClaim(w.ledger, w.book.claims[d]);
    LossSetter(w, calls[n], d);
    NextTouches(w, calls[n], d);
    TouchTotal(w.book.claims, At(calls, n + 1).book.claims, d, w.book.claims[d].syndication);
    CapacityFixed(w, calls[n], w.book.claims[d].syndication);
  }

  /** A claim calculated earlier keeps the test it passed. */
  lemma StillTested(calls: seq<Call>, n: nat, d: nat, j: nat)
    requires n < |calls| && d < |At(calls, n).book.claims| && Tested(calls, n, d, j)
    ensures d < |At(calls, n + 1).book.claims| && Tested(calls, n + 1, d, j)
  {
    AtNext(calls, n);
    var w := At(calls, n);
    assert LinkedClaim(w.ledger, w.book.claims[d]);
    NextEvolves(w, calls[n], d);
    CapacityFixed(w, calls[n], w.book.claims[d].syndication);
  }

  /** One pending claim after one more call. */
  lemma PendingClaimStaysTested(calls: seq<Call>, n: nat, d: nat)
    requires n < |calls| && PendingTested(calls, n)
    requires d < |At(calls, n + 1).book.claims| && Pending(At(calls, n + 1).book.claims[d])
    ensures OnceTested(calls, n + 1, d)
  {
    AtNext(calls, n);
    PendingWasThere(At(calls, n), calls[n], d);
    if At(calls, n).book.claims[d].loss.None? {
      JustTested(calls, n, d);
    } else {
      PendingBefore(At(calls, n), calls[n], d);
      assert OnceTested(calls, n, d);
      var j: nat :| Tested(calls, n, d, j);
      StillTested(calls, n, d, j);
    }
  }

  lemma PendingBefore(w: World, call: Call, d: nat)
    requires Linked(w) && d < |w.book.claims| && w.book.claims[d].loss.Some?
    requires Pending(Next(w, call).book.claims[d])
    ensures Pending(w.book.claims[d])
  {
    assert LinkedClaim(w.ledger, w.book.claims[d]);
    NextEvolves(w, call, d);
  }

  lemma PendingStaysTested(calls: seq<Call>, n: nat)
    requires n < |calls| && PendingTested(calls, n)
    ensures PendingTested(calls, n + 1)
  {
    var claims := At(calls, n + 1).book.claims;
    forall d | 0 <= d < |claims| && Pending(claims[d])
      ensures OnceTested(calls, n + 1, d)
    {
      PendingClaimStaysTested(calls, n, d);
    }
  }

  lemma {:induction false} SerialPrefix(calls: seq<Call>, n: nat)
    requires Serial(calls) && n <= |calls|
    ensures Covered(At(calls, n)) && PendingTested(calls, n)
  {
    if n > 0 {
      SerialPrefix(calls, n - 1);
      AtNext(calls, n - 1);
      NotOverdrawn(calls, n - 1);
      CoveredStep(At(calls, n - 1), calls[n - 1]);
      PendingStaysTested(calls, n - 1);
    }
  }

  /**
   Coverage over runs: if no approval on a syndication falls between another claim's loss calculation
   and its own approval, approved and settled losses never exceed the capacity of any syndication.
   */
  lemma SerialRunsAreCovered(calls: seq<Call>)
    requires Serial(calls)
    ensures Covered(RunWorld(EMPTY_WORLD, calls))
  {
    SerialPrefix(calls, |calls|);
    assert calls[..|calls|] == calls;
  }

  /** Approves nothing but by a loss calculation. */
  predicate Automatic(call: Call) {
    call.OnClaims? ==> !call.claimCommand.Decide? && (call.claimCommand.Advance? ==> call.claimCommand.to != APPROVED)
  }

  /** Runs in which every approval is automatic are serial: each claim is approved by the very call that calculates its loss. */
  lemma AutomaticRunsAreSerial(calls: seq<Call>)
    requires forall t :: 0 <= t < |calls| ==> Automatic(calls[t])
    ensures Serial(calls)
  {
    forall d: nat, j: nat, i: nat | j < i && LossSetAt(calls, d, j) ensures !ApprovedAt(calls, d, i) {
      CalculatedEarlier(calls, d, j, i);
    }
  }

  lemma CalculatedEarlier(calls: seq<Call>, d: nat, j: nat, i: nat)
    requires forall t :: 0 <= t < |calls| ==> Automatic(calls[t])
    requires j < i && LossSetAt(calls, d, j)
    ensures !ApprovedAt(calls, d, i)
  {
    if i < |calls| {
      AtNext(calls, j);
      LossStays(calls, d, j + 1, i);
      AtNext(calls, i);
      NotApprovedAgain(At(calls, i), calls[i], d);
    }
  }

  /** An automatic approval is not of a claim that already has a loss. */
  lemma NotApprovedAgain(w: World, call: Call, d: nat)
    requires Linked(w) && Automatic(call) && d < |w.book.claims| && w.book.claims[d].loss.Some?
    ensures !Approves(w, Next(w, call), d)
  {
    assert LinkedClaim(w.ledger, w.book.claims[d]);
    if Target(call) == Some(d) {
      OwnNotApproved(w, call, d);
    } else if Target(call).Some? {
      OthersUntouched(w, call, Target(call).value);
    }
  }

  lemma OwnNotApproved(w: World, call: Call, d: nat)
    requires Target(call) == Some(d) && Automatic(call) && d < |w.book.claims|
    requires WrittenInTime(w.book.claims[d]) && w.book.claims[d].loss.Some?
    ensures Paid(Next(w, call).book.claims[d].status) ==> Paid(w.book.claims[d].status)
  {
    match call.claimCommand
    case Advance(_, to) =>
    case CalculateLoss(_, loss, ceiling) =>
    case Settle(_) =>
  }

  /** A running total never falls. */
  lemma TotalNeverFalls(w: World, call: Call, k: nat)
    requires Linked(w)
    ensures ApprovedLoss(w.book.claims, k) <= ApprovedLoss(Next(w, call).book.claims, k)
  {
    if Target(call).Some? && Target(call).value < |w.book.claims| {
      NextTouches(w, call, Target(call).value);
      TouchTotal(w.book.claims, Next(w, call).book.claims, Target(call).value, k);
    } else {
      NextTouchesNone(w, call, k);
    }
  }

  /** After a call, coverage holds exactly if it held before and the call did not overdraw. */
  lemma CoveredNext(w: World, call: Call)
    requires Linked(w)
    ensures Covered(Next(w, call)) <==> Covered(w) && !Overdraws(w, call)
  {
    if Covered(w) {
      CoveredStep(w, call);
    } else {
      var k :| 0 <= k < |w.ledger.records| && ApprovedLoss(w.book.claims, k) > w.ledger.records[k].capacity;
      TotalNeverFalls(w, call, k);
      CapacityFixed(w, call, k);
    }
  }

  ghost predicate OverdrawsAt(calls: seq<Call>, t: nat)
    requires t < |calls|
  {
    Overdraws(At(calls, t), calls[t])
  }

  lemma CoveredAt(calls: seq<Call>, t: nat)
    requires t < |calls|
    ensures Covered(At(calls, t + 1)) <==> Covered(At(calls, t)) && !OverdrawsAt(calls, t)
  {
    AtNext(calls, t);
    CoveredNext(At(calls, t), calls[t]);
  }

  /** The exact condition over runs: coverage holds at the end if and only if no call ever approved a claim beyond capacity. */
  lemma CoveredIffNeverOverdrawn(calls: seq<Call>)
    ensures Covered(RunWorld(EMPTY_WORLD, calls)) <==> forall t :: 0 <= t < |calls| ==> !OverdrawsAt(calls, t)
  {
    var good := seq(|calls| + 1, t requires 0 <= t <= |calls| => Covered(At(calls, t)));
    var breaks := seq(|calls|, t requires 0 <= t < |calls| => OverdrawsAt(calls, t));
    forall t | 0 <= t < |calls| ensures good[t + 1] <==> good[t] && !breaks[t] {
      CoveredAt(calls, t);
    }
    BrokenForGood(good, breaks);
    assert calls[..|calls|] == calls;
    assert forall t :: 0 <= t < |calls| ==> (breaks[t] <==> OverdrawsAt(calls, t));
  }

  // ---------------------------------------------------------------- two claims awaiting approval

  /** Two claims on one syndication, both calculated at the full remaining capacity before either is decided. */
  function TwinPending(owner: string, k: nat, id: nat, loss: nat, ceiling: nat): seq<Call> {
    [OnClaims(Report(owner, k)), OnClaims(Report(owner, k)),
     OnClaims(Advance(id, EVIDENCE_COLLECTED)), OnClaims(Advance(id, VERIFIED)), OnClaims(Advance(id, COVERAGE_CONFIRMED)),
     OnClaims(Advance(id + 1, EVIDENCE_COLLECTED)), OnClaims(Advance(id + 1, VERIFIED)), OnClaims(Advance(id + 1, COVERAGE_CONFIRMED)),
     OnClaims(CalculateLoss(id, loss, ceiling)), OnClaims(CalculateLoss(id + 1, loss, ceiling))]
  }

  function TwinClaims(owner: string, k: nat, id: nat, loss: nat, ceiling: nat): seq<Call> {
    TwinPending(owner, k, id, loss, ceiling) + [OnClaims(Decide(id, Approve)), OnClaims(Decide(id + 1, Approve))]
  }

  function Early(owner: string, k: nat, status: ClaimStatus): Claim {
    Claim(k, owner, status, None, None, None)
  }

  function Awaiting(owner: string, k: nat, loss: nat): Claim {
    Claim(k, owner, AWAITING_APPROVAL, Some(loss), Some(HumanReview), None)
  }

  /** The first and the second claim after the first `i` of those calls, up to the two decisions. */
  function FirstTwin(owner: string, k: nat, loss: nat, i: nat): Claim {
    if i >= 9 then Awaiting(owner, k, loss)
    else Early(owner, k, if i >= 5 then COVERAGE_CONFIRMED else if i == 4 then VERIFIED else if i == 3 then EVIDENCE_COLLECTED else REPORTED)
  }

  function SecondTwin(owner: string, k: nat, loss: nat, i: nat): Claim {
    if i >= 10 then Awaiting(owner, k, loss)
    else Early(owner, k, if i >= 8 then COVERAGE_CONFIRMED else if i == 7 then VERIFIED else if i == 6 then EVIDENCE_COLLECTED else REPORTED)
  }

  function TwinStage(owner: string, k: nat, loss: nat, i: nat): seq<Claim>
    requires i <= 10
  {
    if i == 0 then [] else if i == 1 then [FirstTwin(owner, k, loss, i)]
    else [FirstTwin(owner, k, loss, i), SecondTwin(owner, k, loss, i)]
  }

  function TwinWorld(w: World, k: nat, loss: nat, i: nat): World
    requires k < |w.ledger.records| && i <= 10
  {
    w.(book := w.book.(claims := w.book.claims + TwinStage(w.ledger.records[k].owner, k, loss, i)))
  }

  ghost predicate TwinReady(w: World, k: nat, loss: nat, ceiling: nat) {
    && Linked(w) && k < |w.ledger.records| && w.ledger.records[k].status == Bound
    && ApprovedLoss(w.book.claims, k) + loss == w.ledger.records[k].capacity && ceiling < loss
  }

  lemma PendingAddNothing(claims: seq<Claim>, more: seq<Claim>, k: nat)
    requires |more| <= 2 && forall i :: 0 <= i < |more| ==> !Paid(more[i].status)
    ensures ApprovedLoss(claims + more, k) == ApprovedLoss(claims, k)
  {
    var all := claims + more;
    if |more| == 1 {
      assert all[..|all| - 1] == claims;
    } else if |more| == 2 {
      assert all[..|all| - 1][..|all| - 2] == claims;
    } else {
      assert all == claims;
    }
  }

  ghost predicate TwinCallWorks(w: World, k: nat, loss: nat, i: nat, call: Call)
    requires k < |w.ledger.records| && i < 10
  {
    Next(TwinWorld(w, k, loss, i), call) == TwinWorld(w, k, loss, i + 1)
  }

  lemma ReportAccepted(w: World, k: nat)
    requires k < |w.ledger.records|
    ensures Next(w, OnClaims(Report(w.ledger.records[k].owner, k)))
         == w.(book := w.book.(claims := w.book.claims + [Early(w.ledger.records[k].owner, k, REPORTED)]))
  {
  }

  lemma AdvanceAccepted(w: World, id: nat, to: ClaimStatus)
    requires id < |w.book.claims| && CanTransition(w.book.claims[id].status, to)
    requires w.book.claims[id].syndication < |w.ledger.records|
    requires w.ledger.records[w.book.claims[id].syndication].status == Bound
    ensures Next(w, OnClaims(Advance(id, to))) == w.(book := WithClaim(w.book, id, w.book.claims[id].(status := to)))
  {
  }

  lemma ReviewedCalculation(w: World, id: nat, loss: nat, ceiling: nat)
    requires id < |w.book.claims| && w.book.claims[id].status == COVERAGE_CONFIRMED && ceiling < loss
    requires var k := w.book.claims[id].syndication;
             && k < |w.ledger.records| && w.ledger.records[k].status == Bound
             && ApprovedLoss(w.book.claims, k) + loss <= w.ledger.records[k].capacity
    ensures Next(w, OnClaims(CalculateLoss(id, loss, ceiling)))
         == w.(book := WithClaim(w.book, id, w.book.claims[id].(loss := Some(loss), review := Some(HumanReview), status := AWAITING_APPROVAL)))
  {
  }

  lemma TwinReport(w: World, k: nat, loss: nat, i: nat)
    requires k < |w.ledger.records| && i < 2
    ensures TwinCallWorks(w, k, loss, i, OnClaims(Report(w.ledger.records[k].owner, k)))
  {
    ReportAccepted(TwinWorld(w, k, loss, i), k);
    assert TwinWorld(w, k, loss, i + 1).book.claims
        == TwinWorld(w, k, loss, i).book.claims + [Early(w.ledger.records[k].owner, k, REPORTED)];
  }

  lemma FirstTwinAdvances(w: World, k: nat, loss: nat, i: nat)
    requires k < |w.ledger.records| && w.ledger.records[k].status == Bound && 2 <= i < 5
    ensures TwinCallWorks(w, k, loss, i, OnClaims(Advance(|w.book.claims|, FirstTwin(w.ledger.records[k].owner, k, loss, i + 1).status)))
  {
    var before, after := TwinWorld(w, k, loss, i).book.claims, TwinWorld(w, k, loss, i + 1).book.claims;
    var id := |w.book.claims|;
    AdvanceAccepted(TwinWorld(w, k, loss, i), id, after[id].status);
    assert after == before[id := after[id]];
  }

  lemma SecondTwinAdvances(w: World, k: nat, loss: nat, i: nat)
    requires k < |w.ledger.records| && w.ledger.records[k].status == Bound && 5 <= i < 8
    ensures TwinCallWorks(w, k, loss, i, OnClaims(Advance(|w.book.claims| + 1, SecondTwin(w.ledger.records[k].owner, k, loss, i + 1).status)))
  {
    var before, after := TwinWorld(w, k, loss, i).book.claims, TwinWorld(w, k, loss, i + 1).book.claims;
    var id := |w.book.claims| + 1;
    AdvanceAccepted(TwinWorld(w, k, loss, i), id, after[id].status);
    assert after == before[id := after[id]];
  }

  lemma TwinTotals(w: World, k: nat, loss: nat, i: nat)
    requires k < |w.ledger.records| && i <= 10
    ensures ApprovedLoss(TwinWorld(w, k, loss, i).book.claims, k) == ApprovedLoss(w.book.claims, k)
  {
    PendingAddNothing(w.book.claims, TwinStage(w.ledger.records[k].owner, k, loss, i), k);
  }

  lemma FirstTwinCalculated(w: World, k: nat, loss: nat, ceiling: nat, i: nat)
    requires TwinReady(w, k, loss, ceiling) && i == 8
    ensures TwinCallWorks(w, k, loss, i, OnClaims(CalculateLoss(|w.book.claims|, loss, ceiling)))
  {
    var before, after := TwinWorld(w, k, loss, i).book.claims, TwinWorld(w, k, loss, i + 1).book.claims;
    TwinTotals(w, k, loss, i);
    var id := |w.book.claims|;
    ReviewedCalculation(TwinWorld(w, k, loss, i), id, loss, ceiling);
    assert after == before[id := after[id]];
  }

  lemma SecondTwinCalculated(w: World, k: nat, loss: nat, ceiling: nat, i: nat)
    requires TwinReady(w, k, loss, ceiling) && i == 9
    ensures TwinCallWorks(w, k, loss, i, OnClaims(CalculateLoss(|w.book.claims| + 1, loss, ceiling)))
  {
    var before, after := TwinWorld(w, k, loss, i).book.claims, TwinWorld(w, k, loss, i + 1).book.claims;
    TwinTotals(w, k, loss, i);
    var id := |w.book.claims| + 1;
    ReviewedCalculation(TwinWorld(w, k, loss, i), id, loss, ceiling);
    assert after == before[id := after[id]];
  }

  lemma TwinCall(w: World, k: nat, loss: nat, ceiling: nat, i: nat)
    requires TwinReady(w, k, loss, ceiling) && i < 10
    ensures TwinCallWorks(w, k, loss, i, TwinPending(w.ledger.records[k].owner, k, |w.book.claims|, loss, ceiling)[i])
  {
    if i < 2 {
      TwinReport(w, k, loss, i);
    } else if i < 5 {
      FirstTwinAdvances(w, k, loss, i);
    } else if i < 8 {
      SecondTwinAdvances(w, k, loss, i);
    } else if i == 8 {
      FirstTwinCalculated(w, k, loss, ceiling, i);
    } else {
      SecondTwinCalculated(w, k, loss, ceiling, i);
    }
  }

  /** Approving a pending claim adds its loss to the total of its syndication. */
  lemma DecideAdds(w: World, id: nat)
    requires Linked(w) && id < |w.book.claims|
    requires w.book.claims[id].status == AWAITING_APPROVAL && w.book.claims[id].loss.Some?
    ensures var claim := w.book.claims[id];
            var after := Next(w, OnClaims(Decide(id, Approve)));
            && Linked(after) && after.ledger == w.ledger && |after.book.claims| == |w.book.claims|
            && ApprovedLoss(after.book.claims, claim.syndication)
               == ApprovedLoss(w.book.claims, claim.syndication) + claim.loss.value
            && (forall d :: 0 <= d < |w.book.claims| && d != id ==> after.book.claims[d] == w.book.claims[d])
  {
    var call := OnClaims(Decide(id, Approve));
    NextKeepsLinked(w, call);
    NextTouches(w, call, id);
    OthersUntouched(w, call, id);
    TouchTotal(w.book.claims, Next(w, call).book.claims, id, w.book.claims[id].syndication);
  }

  /** A run that goes through these worlds, one call after the other. */
  lemma {:induction false} RunThrough(calls: seq<Call>, worlds: seq<World>, n: nat)
    requires |worlds| == |calls| + 1 && n <= |calls|
    requires forall i :: 0 <= i < |calls| ==> Next(worlds[i], calls[i]) == worlds[i + 1]
    ensures RunWorld(worlds[0], calls[..n]) == worlds[n]
  {
    if n > 0 {
      RunThrough(calls, worlds, n - 1);
      RunWorldSnoc(worlds[0], calls, n - 1);
    }
  }

  lemma TwinsReachPending(w: World, k: nat, loss: nat, ceiling: nat)
    requires TwinReady(w, k, loss, ceiling)
    ensures RunWorld(w, TwinPending(w.ledger.records[k].owner, k, |w.book.claims|, loss, ceiling)) == TwinWorld(w, k, loss, 10)
    ensures Linked(TwinWorld(w, k, loss, 10))
  {
    var calls := TwinPending(w.ledger.records[k].owner, k, |w.book.claims|, loss, ceiling);
    var worlds := seq(11, i requires 0 <= i < 11 => TwinWorld(w, k, loss, i));
    forall i | 0 <= i < |calls| ensures Next(worlds[i], calls[i]) == worlds[i + 1] {
      TwinCall(w, k, loss, ceiling, i);
    }
    RunThrough(calls, worlds, 10);
    assert calls[..10] == calls;
    assert worlds[0].book.claims == w.book.claims;
    RunLinked(w, calls);
  }

  lemma RunLastTwo(w: World, calls: seq<Call>, x: Call, y: Call)
    ensures RunWorld(w, calls + [x, y]) == Next(Next(RunWorld(w, calls), x), y)
  {
    var all := calls + [x, y];
    assert all[..|all| - 1] == calls + [x] && (calls + [x])[..|calls|] == calls;
  }

  ghost predicate AwaitsWith(claim: Claim, k: nat, loss: nat) {
    claim.syndication == k && claim.status == AWAITING_APPROVAL && claim.loss == Some(loss)
  }

  lemma BothTwinsApproved(twins: World, k: nat, loss: nat, id: nat)
    requires Linked(twins) && |twins.book.claims| == id + 2
    requires AwaitsWith(twins.book.claims[id], k, loss) && AwaitsWith(twins.book.claims[id + 1], k, loss)
    ensures var after := Next(Next(twins, OnClaims(Decide(id, Approve))), OnClaims(Decide(id + 1, Approve)));
            && after.ledger == twins.ledger
            && ApprovedLoss(after.book.claims, k) == ApprovedLoss(twins.book.claims, k) + 2 * loss
  {
    DecideAdds(twins, id);
    DecideAdds(Next(twins, OnClaims(Decide(id, Approve))), id + 1);
  }

  ghost predicate Overdrawn(before: World, after: World, k: nat, loss: nat)
    requires k < |before.ledger.records|
  {
    && after.ledger == before.ledger
    && ApprovedLoss(after.book.claims, k) == before.ledger.records[k].capacity + loss
    && !Covered(after)
  }

  lemma TwinsAwait(w: World, k: nat, loss: nat)
    requires k < |w.ledger.records|
    ensures var twins, id := TwinWorld(w, k, loss, 10), |w.book.claims|;
            && |twins.book.claims| == id + 2 && twins.ledger == w.ledger
            && AwaitsWith(twins.book.claims[id], k, loss) && AwaitsWith(twins.book.claims[id + 1], k, loss)
            && ApprovedLoss(twins.book.claims, k) == ApprovedLoss(w.book.claims, k)
  {
    PendingAddNothing(w.book.claims, TwinStage(w.ledger.records[k].owner, k, loss, 10), k);
  }

  lemma TwinsOverdraw(w: World, k: nat, loss: nat, ceiling: nat)
    requires TwinReady(w, k, loss, ceiling) && Linked(TwinWorld(w, k, loss, 10))
    ensures var id := |w.book.claims|;
            Overdrawn(w, Next(Next(TwinWorld(w, k, loss, 10), OnClaims(Decide(id, Approve))), OnClaims(Decide(id + 1, Approve))), k, loss)
  {
    TwinsAwait(w, k, loss);
    BothTwinsApproved(TwinWorld(w, k, loss, 10), k, loss, |w.book.claims|);
  }

  /**
   The hypothesis is needed: wherever the remaining capacity of a bound syndication is above the review
   ceiling, two claims for all of it can both be approved.
   */
  lemma TwinClaimsOverdraw(w: World, k: nat, loss: nat, ceiling: nat)
    requires TwinReady(w, k, loss, ceiling)
    ensures Overdrawn(w, RunWorld(w, TwinClaims(w.ledger.records[k].owner, k, |w.book.claims|, loss, ceiling)), k, loss)
  {
    var id, owner := |w.book.claims|, w.ledger.records[k].owner;
    TwinsReachPending(w, k, loss, ceiling);
    RunLastTwo(w, TwinPending(owner, k, id, loss, ceiling), OnClaims(Decide(id, Approve)), OnClaims(Decide(id + 1, Approve)));
    TwinsOverdraw(w, k, loss, ceiling);
  }
}
