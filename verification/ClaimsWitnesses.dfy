/**
 Runs of both services from the empty state in which the claims properties fail: the conditions that
 `ClaimsRuns` and `CoverageRuns` name are met by calls a client can make.
 */
module ClaimsWitnesses {
  import opened SyndicationMachine
  import opened Claims
  import opened ClaimsMachine
  import opened ClaimsRuns
  import opened Coverage
  import opened CoverageRuns
  import CapitalDrift

  function Lift(commands: seq<Command>): seq<Call> {
    seq(|commands|, i requires 0 <= i < |commands| => OnLedger(commands[i]))
  }

  lemma {:induction false} LiftedRun(commands: seq<Command>)
    ensures RunWorld(EMPTY_WORLD, Lift(commands)) == World(Run(EMPTY, commands), Book([], map[]))
  {
    if commands != [] {
      var earlier := commands[..|commands| - 1];
      LiftedRun(earlier);
      assert Lift(commands)[..|commands| - 1] == Lift(earlier);
    }
  }

  lemma {:induction false} RunWorldAppend(w: World, xs: seq<Call>, ys: seq<Call>)
    ensures RunWorld(w, xs + ys) == RunWorld(RunWorld(w, xs), ys)
  {
    if ys == [] {
      assert xs + ys == xs;
    } else {
      assert (xs + ys)[..|xs + ys| - 1] == xs + ys[..|ys| - 1];
      RunWorldAppend(w, xs, ys[..|ys| - 1]);
    }
  }

  /** Open a syndication of four units, commit three providers, and bind it. */
  function Setup(owner: string, a: string, b: string, c: string): seq<Call> {
    Lift(CapitalDrift.OverdrawnRun(owner, a, b, c))
  }

  lemma SetupIsReady(owner: string, a: string, b: string, c: string)
    requires a != b && b != c && a != c
    ensures var w := RunWorld(EMPTY_WORLD, Setup(owner, a, b, c));
            && TwinReady(w, 0, 4, 0) && w.ledger.records[0].owner == owner && w.book == Book([], map[])
  {
    LiftedRun(CapitalDrift.OverdrawnRun(owner, a, b, c));
    CapitalDrift.DriftBoundIsAttained(owner, a, b, c);
    RunLinked(EMPTY_WORLD, Setup(owner, a, b, c));
  }

  /** Two claims for the whole capacity are both approved. */
  lemma CoverageFails(owner: string, a: string, b: string, c: string)
    requires a != b && b != c && a != c
    ensures !Covered(RunWorld(EMPTY_WORLD, Setup(owner, a, b, c) + TwinClaims(owner, 0, 0, 4, 0)))
  {
    SetupIsReady(owner, a, b, c);
    RunWorldAppend(EMPTY_WORLD, Setup(owner, a, b, c), TwinClaims(owner, 0, 0, 4, 0));
    TwinClaimsOverdraw(RunWorld(EMPTY_WORLD, Setup(owner, a, b, c)), 0, 4, 0);
  }

  /** `advance` alone approves a claim that has no payouts. */
  lemma PayoutsFail(owner: string, a: string, b: string, c: string)
    requires a != b && b != c && a != c
    ensures !PaidIffPayouts(RunWorld(EMPTY_WORLD, Setup(owner, a, b, c) + UnpaidApproval(owner, 0, 0)))
  {
    SetupIsReady(owner, a, b, c);
    RunWorldAppend(EMPTY_WORLD, Setup(owner, a, b, c), UnpaidApproval(owner, 0, 0));
    AdvanceAloneApprovesUnpaid(RunWorld(EMPTY_WORLD, Setup(owner, a, b, c)), 0);
  }

  /** From any such world, one more `advance` approves a claim above the ceiling that nobody has decided. */
  lemma AdvanceSkipsApproval(w: World, k: nat, loss: nat, ceiling: nat)
    requires TwinReady(w, k, loss, ceiling)
    ensures var pending := RunWorld(w, TwinPending(w.ledger.records[k].owner, k, |w.book.claims|, loss, ceiling));
            var call := OnClaims(Advance(|w.book.claims|, APPROVED));
            SkipsApproval(pending, call) && !ApprovalsRecorded(Next(pending, call))
  {
    var id := |w.book.claims|;
    TwinsReachPending(w, k, loss, ceiling);
    var pending := TwinWorld(w, k, loss, 10);
    assert pending.book.claims[id] == Awaiting(w.ledger.records[k].owner, k, loss);
    ApprovalsRecordedNext(pending, OnClaims(Advance(id, APPROVED)));
  }

  /** A claim above the ceiling is approved without a recorded decision. */
  lemma ApprovalFails(owner: string, a: string, b: string, c: string)
    requires a != b && b != c && a != c
    ensures !ApprovalsRecorded(RunWorld(EMPTY_WORLD,
              Setup(owner, a, b, c) + (TwinPending(owner, 0, 0, 4, 0) + [OnClaims(Advance(0, APPROVED))])))
  {
    SetupIsReady(owner, a, b, c);
    var w, calls := RunWorld(EMPTY_WORLD, Setup(owner, a, b, c)), TwinPending(owner, 0, 0, 4, 0);
    RunWorldAppend(EMPTY_WORLD, Setup(owner, a, b, c), calls + [OnClaims(Advance(0, APPROVED))]);
    AdvanceSkipsApproval(w, 0, 4, 0);
    assert (calls + [OnClaims(Advance(0, APPROVED))])[..|calls|] == calls;
  }

  /** That run is not serial, as it must not be. */
  lemma TwinRunIsNotSerial(owner: string, a: string, b: string, c: string)
    requires a != b && b != c && a != c
    ensures !Serial(Setup(owner, a, b, c) + TwinClaims(owner, 0, 0, 4, 0))
  {
    CoverageFails(owner, a, b, c);
    if Serial(Setup(owner, a, b, c) + TwinClaims(owner, 0, 0, 4, 0)) {
      SerialRunsAreCovered(Setup(owner, a, b, c) + TwinClaims(owner, 0, 0, 4, 0));
    }
  }
}
