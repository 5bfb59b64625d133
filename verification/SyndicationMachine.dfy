/**
 The syndication service as a state machine (`apps/api/src/syndication/syndication.service.ts` over
 `InMemorySyndicationRepository` and `InMemoryCapitalRepository`). A record's identifier is its
 position: records are only ever appended, so a new identifier is fresh and an old one stays valid.
 The three maps the repository keys by syndication id are the three parts of one record here.
 */
module SyndicationMachine {
  import opened Prelude
  import opened Sequences
  import opened Money
  import opened Syndication

  datatype Action = PROPOSED | REMOVED | BOUND

  datatype Event = Event(action: Action, org: string, shareBps: int, amount: int)

  datatype Record = Record(
    listing: string, owner: string, capacity: nat, status: Status, allocations: seq<Allocation>, events: seq<Event>)

  datatype Ledger = Ledger(records: seq<Record>, commitments: map<string, nat>)

  /** What the marketplace knows of a listing when it is opened for syndication. */
  datatype Listing = Listing(owner: string, capacity: nat, isOpen: bool)

  datatype Command =
    | OpenListing(caller: string, listingId: string, listing: Option<Listing>)
    | Propose(caller: string, id: nat, shareBps: int, liveInterest: bool, maxExposure: Option<int>)
    | Withdraw(caller: string, id: nat)
    | Bind(caller: string, id: nat)
    | SetCommitment(caller: string, amount: nat)

  type Outcome = Result<nat, SyndicationError>

  const EMPTY := Ledger([], map[])

  // ---------------------------------------------------------------- exposure

  /** What `org` holds in a list of allocations. */
  function Held(allocations: seq<Allocation>, org: string): int {
    if allocations == [] then 0
    else
      var rest, last := Held(allocations[..|allocations| - 1], org), allocations[|allocations| - 1];
      if last.org == org then rest + last.amount else rest
  }

  function RecordExposure(record: Record, org: string): int {
    if record.status == Cancelled then 0 else Held(record.allocations, org)
  }

  /** Proposed and bound amounts of `org` over every syndication. */
  function Exposure(records: seq<Record>, org: string): int {
    Sum(seq(|records|, i requires 0 <= i < |records| => RecordExposure(records[i], org)))
  }

  /** It is the sum, over every syndication that is not cancelled, of the amounts in the provider's name. */
  lemma ExposureMeaning(records: seq<Record>, org: string)
    ensures Exposure(records, org)
         == Sum(seq(|records|, k requires 0 <= k < |records| =>
                  if records[k].status == Cancelled then 0 else Sum(AmountsOf(records[k].allocations, org))))
  {
    forall k | 0 <= k < |records| ensures Held(records[k].allocations, org) == Sum(AmountsOf(records[k].allocations, org)) {
      HeldMeaning(records[k].allocations, org);
    }
    assert seq(|records|, k requires 0 <= k < |records| =>
                 if records[k].status == Cancelled then 0 else Sum(AmountsOf(records[k].allocations, org)))
        == seq(|records|, i requires 0 <= i < |records| => RecordExposure(records[i], org));
  }

  /** Each allocation's amount if it is in this name, and nothing otherwise. */
  ghost function AmountsOf(allocations: seq<Allocation>, org: string): seq<int> {
    seq(|allocations|, i requires 0 <= i < |allocations| => if allocations[i].org == org then allocations[i].amount else 0)
  }

  lemma {:induction false} HeldMeaning(allocations: seq<Allocation>, org: string)
    ensures Held(allocations, org) == Sum(AmountsOf(allocations, org))
  {
    if allocations != [] {
      var earlier := allocations[..|allocations| - 1];
      HeldMeaning(earlier, org);
      assert AmountsOf(allocations, org)[..|earlier|] == AmountsOf(earlier, org);
    }
  }

  function IsBoundFor(record: Record, org: string): int {
    if record.status == Bound && Participates(record.allocations, org) then 1 else 0
  }

  /** The number of bound syndications `org` participates in. */
  function BoundCount(records: seq<Record>, org: string): int {
    Sum(seq(|records|, i requires 0 <= i < |records| => IsBoundFor(records[i], org)))
  }

  // ---------------------------------------------------------------- steps

  /** `requireOpenSyndication`. */
  function OpenRecordError(s: Ledger, id: nat, caller: string, write: bool): Option<SyndicationError> {
    if id >= |s.records| then Some(NotFound)
    else if write && s.records[id].owner != caller then Some(Unauthorised)
    else if s.records[id].status != Open then Some(NotOpen)
    else None
  }

  function OpenStep(s: Ledger, caller: string, listingId: string, listing: Option<Listing>): (Ledger, Outcome) {
    if listing.None? then (s, Err(NotFound))
    else if listing.value.owner != caller then (s, Err(Unauthorised))
    else if !listing.value.isOpen then (s, Err(ListingNotOpen))
    else if exists i :: 0 <= i < |s.records| && s.records[i].listing == listingId then (s, Err(AlreadySyndicated))
    else
      var record := Record(listingId, listing.value.owner, listing.value.capacity, Open, [], []);
      (s.(records := s.records + [record]), Ok(|s.records|))
  }

  function ProposeStep(s: Ledger, caller: string, id: nat, shareBps: int, liveInterest: bool, maxExposure: Option<int>)
    : (Ledger, Outcome)
  {
    var refused := OpenRecordError(s, id, caller, false);
    if refused.Some? then (s, Err(refused.value))
    else if !liveInterest then (s, Err(NoLiveInterest))
    else
      var record := s.records[id];
      var updated := ProposeAllocation(record.allocations, caller, shareBps, record.capacity, maxExposure);
      if updated.Err? then (s, Err(updated.error))
      else if caller !in s.commitments then (s, Err(NoCapitalCommitment))
      else
        var amount := ScaleByBps(record.capacity, shareBps);
        if amount > Available(s.commitments[caller], Exposure(s.records, caller)) then
          (s, Err(InsufficientCommittedCapital))
        else
          var event := Event(PROPOSED, caller, shareBps, amount);
          (s.(records := s.records[id := record.(allocations := updated.value, events := record.events + [event])]), Ok(id))
  }

  function FindOrg(allocations: seq<Allocation>, org: string): (i: nat)
    requires Participates(allocations, org)
    ensures i < |allocations| && allocations[i].org == org
    ensures forall j :: 0 <= j < i ==> allocations[j].org != org
  {
    if allocations[0].org == org then 0
    else
      assert exists j :: 0 <= j < |allocations[1..]| && allocations[1..][j].org == org by {
        var j :| 0 <= j < |allocations| && allocations[j].org == org;
        assert allocations[1..][j - 1].org == org;
      }
      1 + FindOrg(allocations[1..], org)
  }

  function WithdrawStep(s: Ledger, caller: string, id: nat): (Ledger, Outcome) {
    var refused := OpenRecordError(s, id, caller, false);
    if refused.Some? then (s, Err(refused.value))
    else
      var record := s.records[id];
      if !Participates(record.allocations, caller) then (s, Err(AllocationNotFound))
      else
        var removed := record.allocations[FindOrg(record.allocations, caller)];
        var event := Event(REMOVED, caller, removed.shareBps, removed.amount);
        var kept := Without(record.allocations, caller);
        (s.(records := s.records[id := record.(allocations := kept, events := record.events + [event])]), Ok(id))
  }

  function BindEvents(finals: seq<Allocation>): (events: seq<Event>) {
    seq(|finals|, i requires 0 <= i < |finals| => Event(BOUND, finals[i].org, finals[i].shareBps, finals[i].amount))
  }

  function BindStep(s: Ledger, caller: string, id: nat): (Ledger, Outcome) {
    var refused := OpenRecordError(s, id, caller, true);
    if refused.Some? then (s, Err(refused.value))
    else
      var record := s.records[id];
      var finals := BindAllocations(record.allocations, record.capacity);
      if finals.Err? then (s, Err(finals.error))
      else
        (s.(records := s.records[id := BoundRecord(record, finals.value)]), Ok(id))
  }

  /** The record `bind` leaves behind. */
  function BoundRecord(record: Record, finals: seq<Allocation>): Record {
    record.(allocations := finals, events := record.events + BindEvents(finals), status := Bound)
  }

  function Step(s: Ledger, c: Command): (Ledger, Outcome) {
    match c
    case OpenListing(caller, listingId, listing) => OpenStep(s, caller, listingId, listing)
    case Propose(caller, id, shareBps, liveInterest, maxExposure) =>
      ProposeStep(s, caller, id, shareBps, liveInterest, maxExposure)
    case Withdraw(caller, id) => WithdrawStep(s, caller, id)
    case Bind(caller, id) => BindStep(s, caller, id)
    case SetCommitment(caller, amount) => (s.(commitments := s.commitments[caller := amount]), Ok(0))
  }

  /** The state after a sequence of calls, refused ones included. */
  function Run(s: Ledger, commands: seq<Command>): Ledger {
    if commands == [] then s
    else Step(Run(s, commands[..|commands| - 1]), commands[|commands| - 1]).0
  }

  // ---------------------------------------------------------------- the event log

  function ApplyEvent(allocations: seq<Allocation>, event: Event): seq<Allocation> {
    match event.action
    case PROPOSED => allocations + [Allocation(event.org, event.shareBps, event.amount)]
    case REMOVED => Without(allocations, event.org)
    case BOUND =>
      seq(|allocations|, i requires 0 <= i < |allocations| =>
        if allocations[i].org == event.org then allocations[i].(amount := event.amount) else allocations[i])
  }

  /** Rebuilds an allocation list from the log alone. */
  function Replay(allocations: seq<Allocation>, events: seq<Event>): seq<Allocation> {
    if events == [] then allocations
    else ApplyEvent(Replay(allocations, events[..|events| - 1]), events[|events| - 1])
  }

  lemma {:induction false} ReplayAppend(allocations: seq<Allocation>, xs: seq<Event>, ys: seq<Event>)
    ensures Replay(allocations, xs + ys) == Replay(Replay(allocations, xs), ys)
  {
    if ys == [] {
      assert xs + ys == xs;
    } else {
      var last := |ys| - 1;
      assert (xs + ys)[..|xs + ys| - 1] == xs + ys[..last];
      ReplayAppend(allocations, xs, ys[..last]);
    }
  }

  /** Replaying the first k bind events turns the first k proposals into their final form. */
  lemma {:induction false} ReplayBind(proposals: seq<Allocation>, amounts: seq<int>, k: nat)
    requires DistinctOrgs(proposals) && |amounts| == |proposals| && k <= |proposals|
    ensures var finals := WithAmounts(proposals, amounts);
            Replay(proposals, BindEvents(finals)[..k]) == finals[..k] + proposals[k..]
  {
    var finals := WithAmounts(proposals, amounts);
    var events := BindEvents(finals);
    if k > 0 {
      ReplayBind(proposals, amounts, k - 1);
      assert events[..k][..k - 1] == events[..k - 1];
      var before, after := finals[..k - 1] + proposals[k - 1..], finals[..k] + proposals[k..];
      var replayed := ApplyEvent(before, events[k - 1]);
      forall i | 0 <= i < |proposals| ensures replayed[i] == after[i] {
        assert before[i].org == proposals[i].org;
        assert i != k - 1 ==> proposals[i].org != proposals[k - 1].org;
      }
      assert replayed == after;
    }
  }

  // ---------------------------------------------------------------- invariant

  /** Proposals: shares in range, amounts as `scaleMoney` rounds them. */
  ghost predicate Indicative(allocations: seq<Allocation>, capacity: nat) {
    forall i :: 0 <= i < |allocations| ==>
      && 0 < allocations[i].shareBps <= FULL_ALLOCATION_BPS
      && allocations[i].amount == ScaleByBps(capacity, allocations[i].shareBps)
  }

  ghost predicate ValidRecord(record: Record) {
    var allocations := record.allocations;
    && DistinctOrgs(allocations)
    && (forall i :: 0 <= i < |allocations| ==> 0 < allocations[i].shareBps <= FULL_ALLOCATION_BPS)
    && TotalShareBps(allocations) <= FULL_ALLOCATION_BPS
    && Replay([], record.events) == allocations
    && match record.status
       case Open => Indicative(allocations, record.capacity)
       case Bound =>
         && TotalShareBps(allocations) == FULL_ALLOCATION_BPS
         && ValidWeights(Shares(allocations))
         && Amounts(allocations) == Allocate(record.capacity, Shares(allocations))
       case Cancelled => false
  }

  /** Every record is sound, and no listing is syndicated twice. */
  ghost predicate Valid(s: Ledger) {
    && (forall i :: 0 <= i < |s.records| ==> ValidRecord(s.records[i]))
    && (forall i, j :: 0 <= i < j < |s.records| ==> s.records[i].listing != s.records[j].listing)
  }

  lemma ProposeKeepsRecord(record: Record, org: string, shareBps: int, maxExposure: Option<int>)
    requires ValidRecord(record) && record.status == Open
    requires ProposeAllocation(record.allocations, org, shareBps, record.capacity, maxExposure).Ok?
    ensures var updated := ProposeAllocation(record.allocations, org, shareBps, record.capacity, maxExposure).value;
            var event := Event(PROPOSED, org, shareBps, ScaleByBps(record.capacity, shareBps));
            ValidRecord(record.(allocations := updated, events := record.events + [event]))
  {
    var updated := ProposeAllocation(record.allocations, org, shareBps, record.capacity, maxExposure).value;
    assert Shares(updated) == Shares(record.allocations) + [shareBps];
    SumAppend(Shares(record.allocations), [shareBps]);
    assert Sum([shareBps]) == shareBps;
    ReplayOne(record.events, Event(PROPOSED, org, shareBps, ScaleByBps(record.capacity, shareBps)));
  }

  lemma WithdrawReleasesShare(allocations: seq<Allocation>, i: nat)
    requires DistinctOrgs(allocations) && i < |allocations|
    ensures TotalShareBps(Without(allocations, allocations[i].org)) == TotalShareBps(allocations) - allocations[i].shareBps
  {
    WithoutDeletesOne(allocations, i);
    SharesOfRemainder(allocations, i);
    SumRemove(Shares(allocations), i);
  }

  lemma SharesOfRemainder(allocations: seq<Allocation>, i: nat)
    requires i < |allocations|
    ensures Shares(allocations[..i] + allocations[i + 1..]) == Shares(allocations)[..i] + Shares(allocations)[i + 1..]
  {
    var left, right := Shares(allocations[..i] + allocations[i + 1..]), Shares(allocations)[..i] + Shares(allocations)[i + 1..];
    forall k | 0 <= k < |left| ensures left[k] == right[k] {
      assert (allocations[..i] + allocations[i + 1..])[k] == allocations[if k < i then k else k + 1];
    }
  }

  lemma DeletionKeeps(allocations: seq<Allocation>, i: nat, capacity: nat)
    requires DistinctOrgs(allocations) && i < |allocations| && Indicative(allocations, capacity)
    ensures DistinctOrgs(allocations[..i] + allocations[i + 1..])
    ensures Indicative(allocations[..i] + allocations[i + 1..], capacity)
  {
    var kept := allocations[..i] + allocations[i + 1..];
    forall k | 0 <= k < |kept| ensures kept[k] == allocations[if k < i then k else k + 1] {
    }
  }

  lemma WithdrawKeepsRecord(record: Record, org: string, event: Event)
    requires ValidRecord(record) && record.status == Open && Participates(record.allocations, org)
    requires event.action == REMOVED && event.org == org
    ensures ValidRecord(record.(allocations := Without(record.allocations, org), events := record.events + [event]))
  {
    var i := FindOrg(record.allocations, org);
    WithdrawReleasesShare(record.allocations, i);
    WithoutDeletesOne(record.allocations, i);
    DeletionKeeps(record.allocations, i, record.capacity);
    ReplayOne(record.events, event);
  }

  lemma ReplayOne(events: seq<Event>, event: Event)
    ensures Replay([], events + [event]) == ApplyEvent(Replay([], events), event)
  {
    assert (events + [event])[..|events|] == events;
  }

  lemma BindKeepsRecord(record: Record)
    requires ValidRecord(record) && record.status == Open
    requires BindAllocations(record.allocations, record.capacity).Ok?
    ensures var finals := BindAllocations(record.allocations, record.capacity).value;
            ValidRecord(record.(allocations := finals, events := record.events + BindEvents(finals), status := Bound))
  {
    var proposals := record.allocations;
    var amounts := Allocate(record.capacity, Shares(proposals));
    var finals := WithAmounts(proposals, amounts);
    assert Shares(finals) == Shares(proposals);
    ReplayAppend([], record.events, BindEvents(finals));
    ReplayBind(proposals, amounts, |proposals|);
    assert BindEvents(finals)[..|proposals|] == BindEvents(finals);
    assert Amounts(finals) == amounts;
  }

  lemma ReplacementKeepsValid(s: Ledger, id: nat, record: Record)
    requires Valid(s) && id < |s.records| && ValidRecord(record) && record.listing == s.records[id].listing
    ensures Valid(s.(records := s.records[id := record]))
  {
  }

  lemma OpenKeepsValid(s: Ledger, caller: string, listingId: string, listing: Option<Listing>)
    requires Valid(s)
    ensures Valid(OpenStep(s, caller, listingId, listing).0)
  {
    assert Shares([]) == [];
  }

  lemma ProposeKeepsValid(s: Ledger, caller: string, id: nat, shareBps: int, liveInterest: bool, maxExposure: Option<int>)
    requires Valid(s)
    ensures Valid(ProposeStep(s, caller, id, shareBps, liveInterest, maxExposure).0)
  {
    if ProposeStep(s, caller, id, shareBps, liveInterest, maxExposure).1.Ok? {
      assert ValidRecord(s.records[id]);
      ProposeKeepsRecord(s.records[id], caller, shareBps, maxExposure);
      ReplacementKeepsValid(s, id, ProposeStep(s, caller, id, shareBps, liveInterest, maxExposure).0.records[id]);
    }
  }

  lemma WithdrawKeepsValid(s: Ledger, caller: string, id: nat)
    requires Valid(s)
    ensures Valid(WithdrawStep(s, caller, id).0)
  {
    if WithdrawStep(s, caller, id).1.Ok? {
      assert ValidRecord(s.records[id]);
      var record := WithdrawStep(s, caller, id).0.records[id];
      WithdrawKeepsRecord(s.records[id], caller, record.events[|record.events| - 1]);
      ReplacementKeepsValid(s, id, record);
    }
  }

  lemma BindKeepsValid(s: Ledger, caller: string, id: nat)
    requires Valid(s)
    ensures Valid(BindStep(s, caller, id).0)
  {
    if BindStep(s, caller, id).1.Ok? {
      assert ValidRecord(s.records[id]);
      BindKeepsRecord(s.records[id]);
      ReplacementKeepsValid(s, id, BindStep(s, caller, id).0.records[id]);
    }
  }

  lemma StepKeepsValid(s: Ledger, c: Command)
    requires Valid(s)
    ensures Valid(Step(s, c).0)
  {
    match c
    case OpenListing(caller, listingId, listing) => OpenKeepsValid(s, caller, listingId, listing);
    case Propose(caller, id, shareBps, liveInterest, maxExposure) =>
      ProposeKeepsValid(s, caller, id, shareBps, liveInterest, maxExposure);
    case Withdraw(caller, id) => WithdrawKeepsValid(s, caller, id);
    case Bind(caller, id) => BindKeepsValid(s, caller, id);
    case SetCommitment(caller, amount) =>
  }

  /**
   In every reachable state: replaying a syndication's log yields its allocations; organisations are
   distinct; shares total at most 10000; a bound one has shares of exactly 10000 and the exact amounts.
   */
  lemma {:induction false} RunKeepsValid(s: Ledger, commands: seq<Command>)
    requires Valid(s)
    ensures Valid(Run(s, commands))
  {
    if commands != [] {
      RunKeepsValid(s, commands[..|commands| - 1]);
      StepKeepsValid(Run(s, commands[..|commands| - 1]), commands[|commands| - 1]);
    }
  }

  /** The amounts of a bound syndication add up to its capacity exactly. */
  lemma BoundSumsToCapacity(commands: seq<Command>, i: nat)
    requires i < |Run(EMPTY, commands).records| && Run(EMPTY, commands).records[i].status == Bound
    ensures var record := Run(EMPTY, commands).records[i];
            TotalShareBps(record.allocations) == FULL_ALLOCATION_BPS && Sum(Amounts(record.allocations)) == record.capacity
  {
    RunKeepsValid(EMPTY, commands);
    var record := Run(EMPTY, commands).records[i];
    AllocateConserves(record.capacity, Shares(record.allocations));
  }

  // ---------------------------------------------------------------- what later steps may change

  /** A later form of the same record: terms fixed, log extended, and nothing at all changed once bound. */
  ghost predicate Evolves(before: Record, after: Record) {
    && after.listing == before.listing && after.owner == before.owner && after.capacity == before.capacity
    && before.events <= after.events
    && (before.status == Bound ==> after == before)
  }

  lemma StepEvolves(s: Ledger, c: Command, i: nat)
    requires i < |s.records|
    ensures i < |Step(s, c).0.records| && Evolves(s.records[i], Step(s, c).0.records[i])
  {
  }

  lemma {:induction false} RunEvolves(s: Ledger, commands: seq<Command>, i: nat)
    requires i < |s.records|
    ensures i < |Run(s, commands).records| && Evolves(s.records[i], Run(s, commands).records[i])
  {
    if commands != [] {
      RunEvolves(s, commands[..|commands| - 1], i);
      StepEvolves(Run(s, commands[..|commands| - 1]), commands[|commands| - 1], i);
    }
  }

  /**
   An accepted proposal respects the declared exposure limit. If it is later bound at that share, after
   any further calls, the bound amount exceeds the limit by at most one unit, and does so exactly if the
   proposal filled the limit with its share rounded down and binding serves it a left-over unit.
   */
  lemma BoundWithinExposureLimitPlusOne(s: Ledger, caller: string, id: nat, shareBps: int, limit: int,
                                        commands: seq<Command>, i: nat)
    requires Valid(s) && Step(s, Propose(caller, id, shareBps, true, Some(limit))).1.Ok?
    requires var later := Run(Step(s, Propose(caller, id, shareBps, true, Some(limit))).0, commands);
             && id < |later.records| && later.records[id].status == Bound
             && i < |later.records[id].allocations| && later.records[id].allocations[i].shareBps == shareBps
    ensures var record := Run(Step(s, Propose(caller, id, shareBps, true, Some(limit))).0, commands).records[id];
            var proposed := ScaleByBps(s.records[id].capacity, shareBps);
            && proposed <= limit
            && record.allocations[i].amount <= limit + 1
            && ValidWeights(Shares(record.allocations))
            && (record.allocations[i].amount > limit <==>
                  proposed == limit && RaisesAbove(record.capacity, Shares(record.allocations), i, proposed))
  {
    var next := Step(s, Propose(caller, id, shareBps, true, Some(limit))).0;
    AcceptedWithinLimit(s, caller, id, shareBps, limit);
    StepKeepsValid(s, Propose(caller, id, shareBps, true, Some(limit)));
    RunKeepsValid(next, commands);
    RunEvolves(next, commands, id);
    var record := Run(next, commands).records[id];
    BoundNearIndicative(record, i);
  }

  lemma AcceptedWithinLimit(s: Ledger, caller: string, id: nat, shareBps: int, limit: int)
    requires Step(s, Propose(caller, id, shareBps, true, Some(limit))).1.Ok?
    ensures var next := Step(s, Propose(caller, id, shareBps, true, Some(limit))).0;
            && id < |s.records| == |next.records| && next.records[id].capacity == s.records[id].capacity
            && ScaleByBps(s.records[id].capacity, shareBps) <= limit
  {
  }

  lemma BoundNearIndicative(record: Record, i: nat)
    requires ValidRecord(record) && record.status == Bound && i < |record.allocations|
    ensures var provider := record.allocations[i];
            var proposed := ScaleByBps(record.capacity, provider.shareBps);
            && -1 <= provider.amount - proposed <= 1
            && (provider.amount > proposed <==> RaisesAbove(record.capacity, Shares(record.allocations), i, proposed))
  {
    var provider := record.allocations[i];
    ScaleIsNearest(record.capacity, provider.shareBps);
    ApportionedAgainstNearest(record.capacity, Shares(record.allocations), i, ScaleByBps(record.capacity, provider.shareBps));
    assert Amounts(record.allocations)[i] == record.allocations[i].amount;
  }

  /** A record after a newcomer's proposal. */
  function Joined(record: Record, org: string, shareBps: int): Record {
    var amount := ScaleByBps(record.capacity, shareBps);
    record.(allocations := record.allocations + [Allocation(org, shareBps, amount)],
            events := record.events + [Event(PROPOSED, org, shareBps, amount)])
  }

  lemma ProposalJoins(s: Ledger, caller: string, id: nat, shareBps: int, liveInterest: bool, maxExposure: Option<int>)
    requires Step(s, Propose(caller, id, shareBps, liveInterest, maxExposure)).1.Ok?
    ensures id < |s.records| && s.records[id].status == Open && !Participates(s.records[id].allocations, caller)
    ensures Step(s, Propose(caller, id, shareBps, liveInterest, maxExposure))
         == (s.(records := s.records[id := Joined(s.records[id], caller, shareBps)]), Ok(id))
  {
  }

  lemma NewcomerLeaves(s: Ledger, id: nat, record: Record, org: string, shareBps: int)
    requires id < |s.records| && s.records[id] == Joined(record, org, shareBps)
    requires record.status == Open && !Participates(record.allocations, org)
    ensures Step(s, Withdraw(org, id)) == (s.(records := s.records[id := Remembers(record, org, shareBps)]), Ok(id))
  {
    var amount := ScaleByBps(record.capacity, shareBps);
    NewcomerIsLast(record.allocations, Allocation(org, shareBps, amount));
    assert s.records[id].events + [Event(REMOVED, org, shareBps, amount)]
        == record.events + [Event(PROPOSED, org, shareBps, amount), Event(REMOVED, org, shareBps, amount)];
  }

  /** A record that has been joined and left again. */
  function Remembers(record: Record, org: string, shareBps: int): Record {
    var amount := ScaleByBps(record.capacity, shareBps);
    record.(events := record.events + [Event(PROPOSED, org, shareBps, amount), Event(REMOVED, org, shareBps, amount)])
  }

  /** Proposing and then withdrawing restores every allocation; only the log remembers. */
  lemma ProposeThenWithdraw(s: Ledger, caller: string, id: nat, shareBps: int, liveInterest: bool, maxExposure: Option<int>)
    requires Step(s, Propose(caller, id, shareBps, liveInterest, maxExposure)).1.Ok?
    ensures var proposed := Step(s, Propose(caller, id, shareBps, liveInterest, maxExposure)).0;
            var (after, outcome) := Step(proposed, Withdraw(caller, id));
            var amount := ScaleByBps(s.records[id].capacity, shareBps);
            && outcome == Ok(id)
            && after == s.(records := s.records[id := s.records[id].(events := s.records[id].events
                 + [Event(PROPOSED, caller, shareBps, amount), Event(REMOVED, caller, shareBps, amount)])])
  {
    var record := s.records[id];
    ProposalJoins(s, caller, id, shareBps, liveInterest, maxExposure);
    var proposed := s.(records := s.records[id := Joined(record, caller, shareBps)]);
    NewcomerLeaves(proposed, id, record, caller, shareBps);
    assert proposed.records[id := Remembers(record, caller, shareBps)] == s.records[id := Remembers(record, caller, shareBps)];
  }

  lemma NewcomerIsLast(before: seq<Allocation>, newcomer: Allocation)
    requires !Participates(before, newcomer.org)
    ensures Participates(before + [newcomer], newcomer.org)
    ensures FindOrg(before + [newcomer], newcomer.org) == |before|
    ensures Without(before + [newcomer], newcomer.org) == before
  {
    var all := before + [newcomer];
    assert all[|before|].org == newcomer.org;
    assert forall i :: 0 <= i < |before| ==> all[i] == before[i];
    assert all[..|before|] == before;
    WithoutStranger(before, newcomer.org);
  }
}
