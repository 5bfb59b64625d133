/**
 The cross-syndication capital check over whole runs. A proposal is admitted against the provider's
 commitment using rounded amounts, while binding substitutes largest-remainder amounts, so the
 provider's exposure can pass its commitment, by at most one unit for each syndication bound.
 */
module CapitalDrift {
  import opened Prelude
  import opened Sequences
  import opened Money
  import opened Syndication
  import opened SyndicationMachine

  // ---------------------------------------------------------------- holdings

  lemma {:induction false} HeldWithout(allocations: seq<Allocation>, org: string, p: string)
    ensures Held(Without(allocations, org), p) == if p == org then 0 else Held(allocations, p)
  {
    if allocations != [] {
      var last := |allocations| - 1;
      HeldWithout(allocations[..last], org, p);
      var rest := Without(allocations[..last], org);
      assert (rest + [allocations[last]])[..|rest|] == rest;
    }
  }

  lemma {:induction false} HeldNonNegative(allocations: seq<Allocation>, p: string)
    requires forall i :: 0 <= i < |allocations| ==> 0 <= allocations[i].amount
    ensures 0 <= Held(allocations, p)
  {
    if allocations != [] {
      HeldNonNegative(allocations[..|allocations| - 1], p);
    }
  }

  /** What the one entry of a distinct holder says. */
  lemma {:induction false} HeldAt(allocations: seq<Allocation>, i: nat)
    requires DistinctOrgs(allocations) && i < |allocations|
    ensures Held(allocations, allocations[i].org) == allocations[i].amount
  {
    var last := |allocations| - 1;
    if i == last {
      HeldOfStranger(allocations[..last], allocations[i].org);
    } else {
      HeldAt(allocations[..last], i);
    }
  }

  lemma {:induction false} HeldOfStranger(allocations: seq<Allocation>, p: string)
    requires forall i :: 0 <= i < |allocations| ==> allocations[i].org != p
    ensures Held(allocations, p) == 0
  {
    if allocations != [] {
      HeldOfStranger(allocations[..|allocations| - 1], p);
    }
  }

  lemma ExposureUpdate(records: seq<Record>, id: nat, record: Record, p: string)
    requires id < |records|
    ensures Exposure(records[id := record], p)
         == Exposure(records, p) - RecordExposure(records[id], p) + RecordExposure(record, p)
    ensures BoundCount(records[id := record], p)
         == BoundCount(records, p) - IsBoundFor(records[id], p) + IsBoundFor(record, p)
  {
    var exposures := seq(|records|, i requires 0 <= i < |records| => RecordExposure(records[i], p));
    SumUpdate(exposures, id, RecordExposure(record, p));
    var after := records[id := record];
    assert exposures[id := RecordExposure(record, p)]
        == seq(|after|, i requires 0 <= i < |after| => RecordExposure(after[i], p));
    var counts := seq(|records|, i requires 0 <= i < |records| => IsBoundFor(records[i], p));
    SumUpdate(counts, id, IsBoundFor(record, p));
    assert counts[id := IsBoundFor(record, p)] == seq(|after|, i requires 0 <= i < |after| => IsBoundFor(after[i], p));
  }

  lemma ExposureAppend(records: seq<Record>, record: Record, p: string)
    ensures Exposure(records + [record], p) == Exposure(records, p) + RecordExposure(record, p)
    ensures BoundCount(records + [record], p) == BoundCount(records, p) + IsBoundFor(record, p)
  {
    var all := records + [record];
    var exposures := seq(|all|, i requires 0 <= i < |all| => RecordExposure(all[i], p));
    assert exposures[..|records|] == seq(|records|, i requires 0 <= i < |records| => RecordExposure(records[i], p));
    var counts := seq(|all|, i requires 0 <= i < |all| => IsBoundFor(all[i], p));
    assert counts[..|records|] == seq(|records|, i requires 0 <= i < |records| => IsBoundFor(records[i], p));
  }

  // ---------------------------------------------------------------- one step

  /** An accepted proposal of a positive amount leaves the provider within its current commitment. */
  lemma ProposalWithinCommitment(s: Ledger, caller: string, id: nat, shareBps: int, liveInterest: bool, maxExposure: Option<int>)
    requires Step(s, Propose(caller, id, shareBps, liveInterest, maxExposure)).1.Ok?
    ensures caller in s.commitments
    ensures var after := Step(s, Propose(caller, id, shareBps, liveInterest, maxExposure)).0;
            var amount := ScaleByBps(s.records[id].capacity, shareBps);
            && 0 <= amount
            && Exposure(after.records, caller) == Exposure(s.records, caller) + amount
            && (0 < amount ==> Exposure(after.records, caller) <= s.commitments[caller])
            && (forall p :: p != caller ==> Exposure(after.records, p) == Exposure(s.records, p))
            && (forall p :: BoundCount(after.records, p) == BoundCount(s.records, p))
  {
    var record := s.records[id];
    var amount := ScaleByBps(record.capacity, shareBps);
    ScaleWithin(record.capacity, shareBps);
    var newcomer := Allocation(caller, shareBps, amount);
    assert (record.allocations + [newcomer])[..|record.allocations|] == record.allocations;
    var after := Step(s, Propose(caller, id, shareBps, liveInterest, maxExposure)).0.records[id];
    forall p ensures Exposure(s.records[id := after], p) == Exposure(s.records, p) + if p == caller then amount else 0
             ensures BoundCount(s.records[id := after], p) == BoundCount(s.records, p) {
      ExposureUpdate(s.records, id, after, p);
    }
  }

  lemma ProposalsNonNegative(record: Record, p: string)
    requires ValidRecord(record) && record.status == Open
    ensures 0 <= Held(record.allocations, p)
  {
    forall i | 0 <= i < |record.allocations| ensures 0 <= record.allocations[i].amount {
      ScaleWithin(record.capacity, record.allocations[i].shareBps);
    }
    HeldNonNegative(record.allocations, p);
  }

  lemma WithdrawalLeaves(s: Ledger, caller: string, id: nat)
    requires Step(s, Withdraw(caller, id)).1.Ok?
    ensures var after := Step(s, Withdraw(caller, id)).0;
            && id < |s.records| == |after.records| && after.records == s.records[id := after.records[id]]
            && s.records[id].status == Open && after.records[id].status == Open
            && after.records[id].allocations == Without(s.records[id].allocations, caller)
  {
  }

  lemma WithdrawReleases(s: Ledger, caller: string, id: nat, p: string)
    requires Valid(s) && Step(s, Withdraw(caller, id)).1.Ok?
    ensures var after := Step(s, Withdraw(caller, id)).0;
            && Exposure(after.records, p) == Exposure(s.records, p) - (if p == caller then Held(s.records[id].allocations, p) else 0)
            && Exposure(after.records, p) <= Exposure(s.records, p)
            && BoundCount(after.records, p) == BoundCount(s.records, p)
  {
    WithdrawalLeaves(s, caller, id);
    HeldWithout(s.records[id].allocations, caller, p);
    ProposalsNonNegative(s.records[id], p);
    ExposureUpdate(s.records, id, Step(s, Withdraw(caller, id)).0.records[id], p);
  }

  /** This call binds a syndication whose largest-remainder split gives `org` more than its proposal showed. */
  predicate BindsUp(s: Ledger, c: Command, org: string) {
    && c.Bind? && OpenRecordError(s, c.id, c.caller, true).None?
    && var record := s.records[c.id];
       && BindAllocations(record.allocations, record.capacity).Ok?
       && Participates(record.allocations, org)
       && BindRaises(record.allocations, record.capacity, FindOrg(record.allocations, org))
  }

  lemma BoundHolding(record: Record, org: string)
    requires ValidRecord(record) && record.status == Open
    requires BindAllocations(record.allocations, record.capacity).Ok?
    ensures var finals := BindAllocations(record.allocations, record.capacity).value;
            && Held(finals, org) <= Held(record.allocations, org) + 1
            && (Held(finals, org) > Held(record.allocations, org) <==>
                  Participates(record.allocations, org)
                  && BindRaises(record.allocations, record.capacity, FindOrg(record.allocations, org)))
  {
    var finals := BindAllocations(record.allocations, record.capacity).value;
    if Participates(record.allocations, org) {
      var i := FindOrg(record.allocations, org);
      HeldAt(record.allocations, i);
      HeldAt(finals, i);
      ScaleIsNearest(record.capacity, record.allocations[i].shareBps);
      BindMovesByAtMostOne(record.allocations, record.capacity, i);
    } else {
      HeldOfStranger(record.allocations, org);
      HeldOfStranger(finals, org);
    }
  }

  /** An accepted bind raises a provider's exposure by one unit if it binds it up, and otherwise not at all. */
  lemma BindAddsAtMostOne(s: Ledger, caller: string, id: nat, org: string)
    requires Valid(s) && Step(s, Bind(caller, id)).1.Ok?
    ensures var after := Step(s, Bind(caller, id)).0;
            && Exposure(after.records, org) <= Exposure(s.records, org) + 1
            && (Exposure(after.records, org) > Exposure(s.records, org) <==> BindsUp(s, Bind(caller, id), org))
            && BoundCount(after.records, org)
               == BoundCount(s.records, org) + if Participates(s.records[id].allocations, org) then 1 else 0
  {
    var record, bound := s.records[id], Step(s, Bind(caller, id)).0.records[id];
    assert ValidRecord(record);
    BoundHolding(record, org);
    SameParticipants(record.allocations, bound.allocations, org);
    ExposureUpdate(s.records, id, bound, org);
  }

  lemma SameParticipants(before: seq<Allocation>, after: seq<Allocation>, org: string)
    requires |after| == |before| && forall i :: 0 <= i < |before| ==> after[i].org == before[i].org
    ensures Participates(after, org) <==> Participates(before, org)
  {
    if Participates(before, org) {
      assert after[FindOrg(before, org)].org == org;
    }
    if Participates(after, org) {
      assert before[FindOrg(after, org)].org == org;
    }
  }

  // ---------------------------------------------------------------- whole runs

  /** The largest commitment `org` has declared so far; 0 before the first. */
  function HighestCommitment(commands: seq<Command>, org: string): nat {
    if commands == [] then 0
    else
      var before, last := HighestCommitment(commands[..|commands| - 1], org), commands[|commands| - 1];
      if last.SetCommitment? && last.caller == org && last.amount > before then last.amount else before
  }

  /** It is one of the amounts declared, and none is higher. */
  lemma {:induction false} HighestMeaning(commands: seq<Command>, org: string, t: nat)
    requires t < |commands|
    ensures commands[t].SetCommitment? && commands[t].caller == org ==> commands[t].amount <= HighestCommitment(commands, org)
    ensures HighestCommitment(commands, org) == 0
         || exists u :: 0 <= u < |commands| && commands[u] == SetCommitment(org, HighestCommitment(commands, org))
  {
    var last := |commands| - 1;
    var earlier := commands[..last];
    if t < last {
      HighestMeaning(earlier, org, t);
    } else if 0 < last {
      HighestMeaning(earlier, org, 0);
    }
    if u :| 0 <= u < |earlier| && earlier[u] == SetCommitment(org, HighestCommitment(earlier, org)) {
      assert commands[u] == earlier[u];
    }
    assert commands[last] == SetCommitment(org, HighestCommitment(commands, org)) || HighestCommitment(commands, org) == HighestCommitment(earlier, org);
  }

  /** The number of bound syndications in which `org` has a share. */
  lemma BoundCountMeaning(records: seq<Record>, org: string)
    ensures BoundCount(records, org) == |set i | 0 <= i < |records| && records[i].status == Bound && Participates(records[i].allocations, org)|
  {
    var counts := seq(|records|, i requires 0 <= i < |records| => IsBoundFor(records[i], org));
    SumCounts(counts);
    assert (set i | 0 <= i < |counts| && counts[i] == 1)
        == (set i | 0 <= i < |records| && records[i].status == Bound && Participates(records[i].allocations, org));
  }

  /** The current commitment; nothing before the first. */
  function CommitmentOf(s: Ledger, org: string): nat {
    if org in s.commitments then s.commitments[org] else 0
  }

  lemma StepChangesCommitment(s: Ledger, c: Command, org: string)
    ensures CommitmentOf(Step(s, c).0, org) == if c.SetCommitment? && c.caller == org then c.amount else CommitmentOf(s, org)
    ensures c.SetCommitment? ==> Step(s, c).0.records == s.records
  {
  }

  ghost predicate WithinDrift(s: Ledger, org: string, highest: int) {
    && Exposure(s.records, org) <= highest + BoundCount(s.records, org)
    && CommitmentOf(s, org) <= highest
  }

  lemma BoundCountNonNegative(records: seq<Record>, org: string)
    ensures 0 <= BoundCount(records, org)
  {
    SumBoundsEntries(seq(|records|, i requires 0 <= i < |records| => IsBoundFor(records[i], org)));
  }

  lemma StepKeepsDrift(s: Ledger, c: Command, org: string, highest: int)
    requires Valid(s) && WithinDrift(s, org, highest)
    requires c.SetCommitment? && c.caller == org ==> c.amount <= highest
    ensures WithinDrift(Step(s, c).0, org, highest)
  {
    StepChangesCommitment(s, c, org);
    ExposureDrifts(s, c, org, highest);
  }

  lemma ProposalDrifts(s: Ledger, c: Command, org: string, highest: int)
    requires c.Propose? && Step(s, c).1.Ok? && WithinDrift(s, org, highest)
    ensures Exposure(Step(s, c).0.records, org) <= highest + BoundCount(Step(s, c).0.records, org)
  {
    ProposalWithinCommitment(s, c.caller, c.id, c.shareBps, c.liveInterest, c.maxExposure);
    BoundCountNonNegative(s.records, org);
  }

  lemma OpeningAddsNothing(s: Ledger, c: Command, org: string)
    requires c.OpenListing? && Step(s, c).1.Ok?
    ensures Exposure(Step(s, c).0.records, org) == Exposure(s.records, org)
    ensures BoundCount(Step(s, c).0.records, org) == BoundCount(s.records, org)
  {
    ExposureAppend(s.records, Step(s, c).0.records[|s.records|], org);
  }

  lemma ExposureDrifts(s: Ledger, c: Command, org: string, highest: int)
    requires Valid(s) && WithinDrift(s, org, highest)
    ensures Exposure(Step(s, c).0.records, org) <= highest + BoundCount(Step(s, c).0.records, org)
  {
    if Step(s, c).1.Ok? {
      match c
      case OpenListing(caller, listingId, listing) => OpeningAddsNothing(s, c, org);
      case Propose(caller, id, shareBps, liveInterest, maxExposure) => ProposalDrifts(s, c, org, highest);
      case Withdraw(caller, id) =>
        WithdrawReleases(s, caller, id, org);
      case Bind(caller, id) =>
        BindAddsAtMostOne(s, caller, id, org);
      case SetCommitment(caller, amount) =>
    }
  }

  /**
   Capital drift. After any interleaving of calls, a provider's proposed and bound amounts, summed over
   every syndication, exceed the highest commitment it ever declared by at most the number of bound
   syndications it participates in.
   */
  lemma {:induction false} CapitalDriftBound(commands: seq<Command>, org: string)
    ensures Exposure(Run(EMPTY, commands).records, org)
         <= HighestCommitment(commands, org) + BoundCount(Run(EMPTY, commands).records, org)
    ensures WithinDrift(Run(EMPTY, commands), org, HighestCommitment(commands, org))
  {
    if commands != [] {
      var earlier := commands[..|commands| - 1];
      CapitalDriftBound(earlier, org);
      RunKeepsValid(EMPTY, earlier);
      StepKeepsDrift(Run(EMPTY, earlier), commands[|commands| - 1], org, HighestCommitment(commands, org));
    }
  }

  // ---------------------------------------------------------------- exactly when the limit is passed

  /** The call that takes a provider past `limit`: it binds up a provider that has nothing left of it. */
  predicate Overruns(s: Ledger, c: Command, org: string, limit: int) {
    BindsUp(s, c, org) && Exposure(s.records, org) == limit
  }

  /** One call, from within a limit that is no lower than the provider's commitment: exactly when it ends above. */
  lemma StepPassesLimit(s: Ledger, c: Command, org: string, limit: int)
    requires Valid(s) && Exposure(s.records, org) <= limit && CommitmentOf(s, org) <= limit
    ensures Exposure(Step(s, c).0.records, org) > limit <==> Overruns(s, c, org, limit)
  {
    if Step(s, c).1.Ok? {
      match c
      case OpenListing(caller, listingId, listing) =>
        OpeningAddsNothing(s, c, org);
      case Propose(caller, id, shareBps, liveInterest, maxExposure) =>
        ProposalWithinCommitment(s, caller, id, shareBps, liveInterest, maxExposure);
      case Withdraw(caller, id) =>
        WithdrawReleases(s, caller, id, org);
      case Bind(caller, id) =>
        BindAddsAtMostOne(s, caller, id, org);
      case SetCommitment(caller, amount) =>
    }
  }

  /** The ledger after the first `t` calls. */
  function LedgerAt(commands: seq<Command>, t: nat): Ledger
    requires t <= |commands|
  {
    Run(EMPTY, commands[..t])
  }

  lemma NothingHeldAtFirst(commands: seq<Command>, org: string)
    ensures Exposure(LedgerAt(commands, 0).records, org) == 0
  {
    assert commands[..0] == [];
  }

  ghost predicate WithinHighest(commands: seq<Command>, t: nat, org: string)
    requires t <= |commands|
  {
    Exposure(LedgerAt(commands, t).records, org) <= HighestCommitment(commands[..t], org)
  }

  ghost predicate OverrunsHighestAt(commands: seq<Command>, t: nat, org: string)
    requires t < |commands|
  {
    Overruns(LedgerAt(commands, t), commands[t], org, HighestCommitment(commands[..t], org))
  }

  lemma HighestNext(commands: seq<Command>, t: nat, org: string)
    requires t < |commands| && WithinHighest(commands, t, org)
    ensures WithinHighest(commands, t + 1, org) <==> !OverrunsHighestAt(commands, t, org)
  {
    var s, highest := LedgerAt(commands, t), HighestCommitment(commands[..t], org);
    RunSnoc(EMPTY, commands, t);
    RunKeepsValid(EMPTY, commands[..t]);
    CapitalDriftBound(commands[..t], org);
    StepPassesLimit(s, commands[t], org, highest);
    assert commands[..t + 1][..t] == commands[..t];
  }

  /**
   The exact condition over runs: a provider's exposure has never passed the highest commitment it had
   declared, if and only if no bind ever rounded it up when that commitment was used to the last unit.
   */
  lemma WithinHighestIffNeverOverrun(commands: seq<Command>, org: string)
    ensures (forall t :: 0 <= t <= |commands| ==> WithinHighest(commands, t, org))
       <==> (forall t :: 0 <= t < |commands| ==> !OverrunsHighestAt(commands, t, org))
  {
    var good := seq(|commands| + 1, t requires 0 <= t <= |commands| => WithinHighest(commands, t, org));
    var breaks := seq(|commands|, t requires 0 <= t < |commands| => OverrunsHighestAt(commands, t, org));
    forall t | 0 <= t < |commands| && good[t] ensures good[t + 1] <==> !breaks[t] {
      HighestNext(commands, t, org);
    }
    NothingHeldAtFirst(commands, org);
    NeverBroken(good, breaks);
    assert forall t :: 0 <= t <= |commands| ==> (good[t] <==> WithinHighest(commands, t, org));
    assert forall t :: 0 <= t < |commands| ==> (breaks[t] <==> OverrunsHighestAt(commands, t, org));
  }

  ghost predicate WithinCurrent(commands: seq<Command>, t: nat, org: string)
    requires t <= |commands|
  {
    Exposure(LedgerAt(commands, t).records, org) <= CommitmentOf(LedgerAt(commands, t), org)
  }

  /** The two calls that put a provider above its current commitment: a bind that rounds it up at the limit, and lowering the limit. */
  predicate OverrunsCurrent(s: Ledger, c: Command, org: string) {
    Overruns(s, c, org, CommitmentOf(s, org)) || (c.SetCommitment? && c.caller == org && c.amount < Exposure(s.records, org))
  }

  lemma StepPassesCommitment(s: Ledger, c: Command, org: string)
    requires Valid(s) && Exposure(s.records, org) <= CommitmentOf(s, org)
    ensures Exposure(Step(s, c).0.records, org) <= CommitmentOf(Step(s, c).0, org) <==> !OverrunsCurrent(s, c, org)
  {
    StepChangesCommitment(s, c, org);
    StepPassesLimit(s, c, org, CommitmentOf(s, org));
  }

  ghost predicate OverrunsCurrentAt(commands: seq<Command>, t: nat, org: string)
    requires t < |commands|
  {
    OverrunsCurrent(LedgerAt(commands, t), commands[t], org)
  }

  lemma CurrentNext(commands: seq<Command>, t: nat, org: string)
    requires t < |commands| && WithinCurrent(commands, t, org)
    ensures WithinCurrent(commands, t + 1, org) <==> !OverrunsCurrentAt(commands, t, org)
  {
    RunSnoc(EMPTY, commands, t);
    RunKeepsValid(EMPTY, commands[..t]);
    StepPassesCommitment(LedgerAt(commands, t), commands[t], org);
  }

  /** The same for the commitment in force: exposure never passed it, if and only if no call was one of those two. */
  lemma WithinCurrentIffNeverOverrun(commands: seq<Command>, org: string)
    ensures (forall t :: 0 <= t <= |commands| ==> WithinCurrent(commands, t, org))
       <==> (forall t :: 0 <= t < |commands| ==> !OverrunsCurrentAt(commands, t, org))
  {
    var good := seq(|commands| + 1, t requires 0 <= t <= |commands| => WithinCurrent(commands, t, org));
    var breaks := seq(|commands|, t requires 0 <= t < |commands| => OverrunsCurrentAt(commands, t, org));
    forall t | 0 <= t < |commands| && good[t] ensures good[t + 1] <==> !breaks[t] {
      CurrentNext(commands, t, org);
    }
    NothingHeldAtFirst(commands, org);
    NeverBroken(good, breaks);
    assert forall t :: 0 <= t <= |commands| ==> (good[t] <==> WithinCurrent(commands, t, org));
    assert forall t :: 0 <= t < |commands| ==> (breaks[t] <==> OverrunsCurrentAt(commands, t, org));
  }

  // ---------------------------------------------------------------- the bound is attained

  const THIRDS := [3334, 3333, 3333]

  lemma ThirdsOfFour(weights: seq<int>)
    requires weights == THIRDS
    ensures ValidWeights(weights) && LargestRemainder(4, weights, [2, 1, 1])
    ensures Floors(4, weights) == [1, 1, 1] && Fractions(4, weights) == [3336, 3332, 3332]
  {
    SumOfThree(3334, 3333, 3333);
    SumOfThree(2, 1, 1);
    assert Floors(4, weights) == [1, 1, 1];
    assert Fractions(4, weights) == [3336, 3332, 3332];
    ObeysRule(4, weights, [1, 1, 1], [3336, 3332, 3332], [2, 1, 1]);
  }

  /** Four units over 3334, 3333 and 3333 basis points: one unit each, and the fourth to the largest fraction. */
  lemma FourUnitsInThirds(weights: seq<int>)
    requires weights == THIRDS
    ensures ValidWeights(weights) && Allocate(4, weights) == [2, 1, 1]
  {
    ThirdsOfFour(weights);
    UntiedIsComputed(4, weights, [2, 1, 1]);
  }

  function OverdrawnRun(owner: string, a: string, b: string, c: string): seq<Command> {
    [OpenListing(owner, "listing", Some(Listing(owner, 4, true))),
     SetCommitment(a, 1), SetCommitment(b, 1), SetCommitment(c, 1),
     Propose(a, 0, 3334, true, None), Propose(b, 0, 3333, true, None), Propose(c, 0, 3333, true, None),
     Bind(owner, 0)]
  }

  /** The one-record ledger of that run, with `n` proposals made and not yet bound. */
  function Overdrawn(owner: string, a: string, b: string, c: string, n: nat): Ledger
    requires n <= 3
  {
    var allocations := [Allocation(a, 3334, 1), Allocation(b, 3333, 1), Allocation(c, 3333, 1)];
    var events := [Event(PROPOSED, a, 3334, 1), Event(PROPOSED, b, 3333, 1), Event(PROPOSED, c, 3333, 1)];
    Ledger([Record("listing", owner, 4, Open, allocations[..n], events[..n])], map[a := 1, b := 1, c := 1])
  }

  lemma OneRecord(record: Record, p: string)
    ensures Exposure([record], p) == RecordExposure(record, p) && BoundCount([record], p) == IsBoundFor(record, p)
  {
    ExposureAppend([], record, p);
    assert [] + [record] == [record];
  }

  lemma OverdrawnRoom(owner: string, a: string, b: string, c: string, n: nat)
    requires a != b && b != c && a != c && n < 3
    ensures var allocations := Overdrawn(owner, a, b, c, n).records[0].allocations;
            var caller := [a, b, c][n];
            && 0 <= TotalShareBps(allocations) <= 6667
            && !Participates(allocations, caller)
            && Exposure(Overdrawn(owner, a, b, c, n).records, caller) == 0
  {
    var record := Overdrawn(owner, a, b, c, n).records[0];
    HeldOfStranger(record.allocations, [a, b, c][n]);
    OneRecord(record, [a, b, c][n]);
    var shares := Shares(record.allocations);
    assert shares == [3334, 3333, 3333][..n];
    assert n == 2 ==> shares[..1] == [3334];
    assert n == 1 ==> shares[..0] == [];
    assert Sum([3334]) == 3334;
  }

  lemma ProposalAccepted(s: Ledger, caller: string, id: nat, shareBps: int)
    requires id < |s.records| && s.records[id].status == Open && !Participates(s.records[id].allocations, caller)
    requires 0 < shareBps && TotalShareBps(s.records[id].allocations) + shareBps <= FULL_ALLOCATION_BPS
    requires caller in s.commitments
    requires Exposure(s.records, caller) + ScaleByBps(s.records[id].capacity, shareBps) <= s.commitments[caller]
    requires 0 <= TotalShareBps(s.records[id].allocations) && Exposure(s.records, caller) < s.commitments[caller]
    ensures Step(s, Propose(caller, id, shareBps, true, None))
         == (s.(records := s.records[id := Joined(s.records[id], caller, shareBps)]), Ok(id))
  {
  }

  lemma OverdrawnProposal(owner: string, a: string, b: string, c: string, n: nat)
    requires a != b && b != c && a != c && n < 3
    ensures Step(Overdrawn(owner, a, b, c, n), OverdrawnRun(owner, a, b, c)[4 + n]).0 == Overdrawn(owner, a, b, c, n + 1)
  {
    var s, next := Overdrawn(owner, a, b, c, n), Overdrawn(owner, a, b, c, n + 1);
    var caller, share := [a, b, c][n], if n == 0 then 3334 else 3333;
    OverdrawnRoom(owner, a, b, c, n);
    assert ScaleByBps(4, share) == 1;
    ProposalAccepted(s, caller, 0, share);
    assert next.records[0].events == s.records[0].events + [Event(PROPOSED, caller, share, 1)];
    assert next.records[0].allocations == s.records[0].allocations + [Allocation(caller, share, 1)];
  }

  lemma RunSnoc(s: Ledger, commands: seq<Command>, k: nat)
    requires k < |commands|
    ensures Run(s, commands[..k + 1]) == Step(Run(s, commands[..k]), commands[k]).0
  {
    assert commands[..k + 1][..k] == commands[..k];
  }

  lemma OverdrawnSetup(owner: string, a: string, b: string, c: string)
    requires a != b && b != c && a != c
    ensures Run(EMPTY, OverdrawnRun(owner, a, b, c)[..4]) == Overdrawn(owner, a, b, c, 0)
  {
    var commands := OverdrawnRun(owner, a, b, c);
    RunSnoc(EMPTY, commands, 0);
    RunSnoc(EMPTY, commands, 1);
    RunSnoc(EMPTY, commands, 2);
    RunSnoc(EMPTY, commands, 3);
    assert Run(EMPTY, commands[..0]) == EMPTY;
    var listed := [Record("listing", owner, 4, Open, [], [])];
    assert OpenStep(EMPTY, owner, "listing", Some(Listing(owner, 4, true))).0 == Ledger(listed, map[]);
    assert Run(EMPTY, commands[..1]) == Ledger(listed, map[]);
    assert Run(EMPTY, commands[..4]) == Ledger(listed, map[][a := 1][b := 1][c := 1]);
  }

  lemma OverdrawnProposals(owner: string, a: string, b: string, c: string)
    requires a != b && b != c && a != c
    ensures Run(EMPTY, OverdrawnRun(owner, a, b, c)[..7]) == Overdrawn(owner, a, b, c, 3)
  {
    var commands := OverdrawnRun(owner, a, b, c);
    OverdrawnSetup(owner, a, b, c);
    for n := 0 to 3
      invariant Run(EMPTY, commands[..4 + n]) == Overdrawn(owner, a, b, c, n)
    {
      RunSnoc(EMPTY, commands, 4 + n);
      OverdrawnProposal(owner, a, b, c, n);
    }
  }

  /** The extra unit is real: a provider that never committed more than 1 ends up bound for 2. */
  lemma DriftBoundIsAttained(owner: string, a: string, b: string, c: string)
    requires a != b && b != c && a != c
    ensures var commands := OverdrawnRun(owner, a, b, c);
            var s := Run(EMPTY, commands);
            && HighestCommitment(commands, a) == 1 && BoundCount(s.records, a) == 1
            && Exposure(s.records, a) == 2
            && |s.records| == 1 && s.records[0].status == Bound && s.records[0].owner == owner && s.records[0].capacity == 4
  {
    var commands := OverdrawnRun(owner, a, b, c);
    OverdrawnProposals(owner, a, b, c);
    RunSnoc(EMPTY, commands, 7);
    assert commands[..8] == commands;
    OverdrawnBind(owner, a, b, c);
    HighestInOverdrawnRun(owner, a, b, c);
  }

  /** Bound in thirds, the first of three participants holds two of the four units. */
  lemma ThirdsAreBound(record: Record, caller: string)
    requires record.status == Open && record.owner == caller && record.capacity == 4
    requires Shares(record.allocations) == THIRDS && DistinctOrgs(record.allocations)
    ensures var first := record.allocations[0].org;
            var after := Step(Ledger([record], map[]), Bind(caller, 0)).0.records;
            && BoundCount(after, first) == 1 && Exposure(after, first) == 2
            && |after| == 1 && after[0].status == Bound && after[0].owner == caller && after[0].capacity == 4
  {
    SumOfThree(3334, 3333, 3333);
    FourUnitsInThirds(Shares(record.allocations));
    var bound := Step(Ledger([record], map[]), Bind(caller, 0)).0.records[0];
    assert bound.allocations == WithAmounts(record.allocations, [2, 1, 1]);
    HeldAt(bound.allocations, 0);
    assert bound.allocations[0].org == record.allocations[0].org;
    assert Step(Ledger([record], map[]), Bind(caller, 0)).0.records == [bound];
    OneRecord(bound, record.allocations[0].org);
  }

  lemma OverdrawnBind(owner: string, a: string, b: string, c: string)
    requires a != b && b != c && a != c
    ensures var s := Step(Overdrawn(owner, a, b, c, 3), Bind(owner, 0)).0;
            && BoundCount(s.records, a) == 1 && Exposure(s.records, a) == 2
            && |s.records| == 1 && s.records[0].status == Bound && s.records[0].owner == owner && s.records[0].capacity == 4
  {
    var record := Overdrawn(owner, a, b, c, 3).records[0];
    assert Shares(record.allocations) == THIRDS;
    ThirdsAreBound(record, owner);
    assert Step(Overdrawn(owner, a, b, c, 3), Bind(owner, 0)).0.records == Step(Ledger([record], map[]), Bind(owner, 0)).0.records;
  }

  lemma HighestInOverdrawnRun(owner: string, a: string, b: string, c: string)
    requires a != b && a != c
    ensures HighestCommitment(OverdrawnRun(owner, a, b, c), a) == 1
  {
    var commands := OverdrawnRun(owner, a, b, c);
    for k := 0 to 8
      invariant HighestCommitment(commands[..k], a) == if k < 2 then 0 else 1
    {
      assert commands[..k + 1][..k] == commands[..k];
    }
    assert commands[..8] == commands;
  }
}
