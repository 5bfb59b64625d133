/**
 The stateful service (`apps/api/src/syndication/syndication.service.ts`, `setCommitment` of
 `apps/api/src/capital/capital.service.ts`) with its in-memory repositories as fields. Every method
 performs exactly the corresponding step of `SyndicationMachine`, errors and unchanged state included.
 */
module SyndicationServices {
  import opened Prelude
  import opened Syndication
  import opened SyndicationMachine

  /** The allocations of one organisation, over all records in insertion order. */
  function ContributionsIn(allocations: seq<Allocation>, status: Status, org: string): seq<Contribution> {
    if allocations == [] then []
    else
      var rest, last := ContributionsIn(allocations[..|allocations| - 1], status, org), allocations[|allocations| - 1];
      if last.org == org then rest + [Contribution(status, last.amount)] else rest
  }

  function ContributionsOf(records: seq<Record>, org: string): seq<Contribution> {
    if records == [] then []
    else
      var last := records[|records| - 1];
      ContributionsOf(records[..|records| - 1], org) + ContributionsIn(last.allocations, last.status, org)
  }

  lemma {:induction false} StatusTotalAppend(xs: seq<Contribution>, ys: seq<Contribution>, status: Status)
    ensures StatusTotal(xs + ys, status) == StatusTotal(xs, status) + StatusTotal(ys, status)
  {
    if ys == [] {
      assert xs + ys == xs;
    } else {
      assert (xs + ys)[..|xs + ys| - 1] == xs + ys[..|ys| - 1];
      StatusTotalAppend(xs, ys[..|ys| - 1], status);
    }
  }

  lemma {:induction false} ContributionsTotal(allocations: seq<Allocation>, status: Status, org: string, wanted: Status)
    ensures StatusTotal(ContributionsIn(allocations, status, org), wanted) == if wanted == status then Held(allocations, org) else 0
  {
    if allocations != [] {
      var last := |allocations| - 1;
      ContributionsTotal(allocations[..last], status, org, wanted);
      var rest := ContributionsIn(allocations[..last], status, org);
      assert (rest + [Contribution(status, allocations[last].amount)])[..|rest|] == rest;
    }
  }

  /** Allocated plus reserved, as the position computes them, is the exposure over every syndication. */
  lemma {:induction false} PositionIsExposure(records: seq<Record>, org: string)
    ensures StatusTotal(ContributionsOf(records, org), Bound) + StatusTotal(ContributionsOf(records, org), Open)
         == Exposure(records, org)
  {
    if records != [] {
      var earlier, last := records[..|records| - 1], records[|records| - 1];
      PositionIsExposure(earlier, org);
      ContributionsTotal(last.allocations, last.status, org, Bound);
      ContributionsTotal(last.allocations, last.status, org, Open);
      StatusTotalAppend(ContributionsOf(earlier, org), ContributionsIn(last.allocations, last.status, org), Bound);
      StatusTotalAppend(ContributionsOf(earlier, org), ContributionsIn(last.allocations, last.status, org), Open);
      var all := seq(|records|, i requires 0 <= i < |records| => RecordExposure(records[i], org));
      assert all[..|earlier|] == seq(|earlier|, i requires 0 <= i < |earlier| => RecordExposure(earlier[i], org));
    }
  }

  /** The listed contributions are the organisation's amounts, each with the status of its syndication. */
  lemma {:induction false} ContributionsMeaning(records: seq<Record>, org: string, c: Contribution)
    ensures c in ContributionsOf(records, org) <==> exists k :: 0 <= k < |records| && HoldsIn(records[k], org, c)
  {
    if records != [] {
      var last := |records| - 1;
      ContributionsMeaning(records[..last], org, c);
      ContributionsInMeaning(records[last].allocations, records[last].status, org, c);
      if k :| 0 <= k < |records| && HoldsIn(records[k], org, c) {
        assert k < last ==> HoldsIn(records[..last][k], org, c);
      }
      if k :| 0 <= k < last && HoldsIn(records[..last][k], org, c) {
        assert HoldsIn(records[k], org, c);
      }
    }
  }

  predicate HoldsIn(record: Record, org: string, c: Contribution) {
    c.status == record.status && Allocates(record.allocations, org, c.amount)
  }

  predicate Allocates(allocations: seq<Allocation>, org: string, amount: int) {
    exists i :: 0 <= i < |allocations| && allocations[i].org == org && allocations[i].amount == amount
  }

  lemma {:induction false} ContributionsInMeaning(allocations: seq<Allocation>, status: Status, org: string, c: Contribution)
    ensures c in ContributionsIn(allocations, status, org) <==> c.status == status && Allocates(allocations, org, c.amount)
  {
    if allocations != [] {
      var last := |allocations| - 1;
      ContributionsInMeaning(allocations[..last], status, org, c);
      if i :| 0 <= i < |allocations| && allocations[i].org == org && allocations[i].amount == c.amount {
        assert i < last ==> allocations[..last][i] == allocations[i];
      }
      if i :| 0 <= i < last && allocations[..last][i].org == org && allocations[..last][i].amount == c.amount {
        assert allocations[i] == allocations[..last][i];
      }
    }
  }

  class SyndicationService {
    var records: seq<Record>
    var commitments: map<string, nat>

    function State(): Ledger
      reads this
    {
      Ledger(records, commitments)
    }

    constructor ()
      ensures State() == EMPTY
    {
      records, commitments := [], map[];
    }

    method Open(caller: string, listingId: string, listing: Option<Listing>) returns (r: Outcome)
      modifies this
      ensures (State(), r) == Step(old(State()), OpenListing(caller, listingId, listing))
    {
      if listing.None? {
        return Err(NotFound);
      }
      if listing.value.owner != caller {
        return Err(Unauthorised);
      }
      if !listing.value.isOpen {
        return Err(ListingNotOpen);
      }
      for i := 0 to |records|
        invariant State() == old(State())
        invariant forall k :: 0 <= k < i ==> records[k].listing != listingId
      {
        if records[i].listing == listingId {
          return Err(AlreadySyndicated);
        }
      }
      var id := |records|;
      records := records + [Record(listingId, listing.value.owner, listing.value.capacity, Status.Open, [], [])];
      return Ok(id);
    }

    method ListAllocationsForOrganisation(org: string) returns (result: seq<Contribution>)
      ensures result == ContributionsOf(records, org)
    {
      result := [];
      for i := 0 to |records|
        invariant result == ContributionsOf(records[..i], org)
      {
        var record := records[i];
        var before := result;
        for j := 0 to |record.allocations|
          invariant result == before + ContributionsIn(record.allocations[..j], record.status, org)
        {
          assert record.allocations[..j + 1][..j] == record.allocations[..j];
          if record.allocations[j].org == org {
            result := result + [Contribution(record.status, record.allocations[j].amount)];
          }
        }
        assert record.allocations[..|record.allocations|] == record.allocations;
        assert records[..i + 1][..i] == records[..i];
      }
      assert records[..|records|] == records;
    }

    method Propose(caller: string, id: nat, shareBps: int, liveInterest: bool, maxExposure: Option<int>)
      returns (r: Outcome)
      modifies this
      ensures (State(), r) == Step(old(State()), Command.Propose(caller, id, shareBps, liveInterest, maxExposure))
    {
      var refused := OpenRecordError(State(), id, caller, false);
      if refused.Some? {
        return Err(refused.value);
      }
      if !liveInterest {
        return Err(NoLiveInterest);
      }
      var record := records[id];
      var updated := ProposeAllocation(record.allocations, caller, shareBps, record.capacity, maxExposure);
      if updated.Err? {
        return Err(updated.error);
      }
      var added := updated.value[|updated.value| - 1];
      if caller !in commitments {
        return Err(NoCapitalCommitment);
      }
      var contributions := ListAllocationsForOrganisation(caller);
      var position := ComputePosition(commitments[caller], contributions);
      PositionIsExposure(records, caller);
      if added.amount > position.available {
        return Err(InsufficientCommittedCapital);
      }
      AddAllocation(id, added);
      return Ok(id);
    }

    /** The repository write behind `propose`: the allocation and its log entry. */
    method AddAllocation(id: nat, allocation: Allocation)
      requires id < |records|
      modifies this`records
      ensures var record := old(records[id]);
              records == old(records)[id := record.(
                allocations := record.allocations + [allocation],
                events := record.events + [Event(PROPOSED, allocation.org, allocation.shareBps, allocation.amount)])]
    {
      var record := records[id].(allocations := records[id].allocations + [allocation]);
      AppendEvent(id, record, Event(PROPOSED, allocation.org, allocation.shareBps, allocation.amount));
    }

    method AppendEvent(id: nat, record: Record, event: Event)
      requires id < |records|
      modifies this`records
      ensures records == old(records)[id := record.(events := record.events + [event])]
    {
      records := records[id := record.(events := record.events + [event])];
    }

    method Withdraw(caller: string, id: nat) returns (r: Outcome)
      modifies this
      ensures (State(), r) == Step(old(State()), Command.Withdraw(caller, id))
    {
      var refused := OpenRecordError(State(), id, caller, false);
      if refused.Some? {
        return Err(refused.value);
      }
      var current := RemoveAllocation(records[id].allocations, caller);
      if current.Err? {
        return Err(current.error);
      }
      var removed := records[id].allocations[FindOrg(records[id].allocations, caller)];
      var record := records[id].(allocations := Without(records[id].allocations, caller));
      AppendEvent(id, record, Event(REMOVED, caller, removed.shareBps, removed.amount));
      return Ok(id);
    }

    method Bind(caller: string, id: nat) returns (r: Outcome)
      modifies this
      ensures (State(), r) == Step(old(State()), Command.Bind(caller, id))
    {
      var refused := OpenRecordError(State(), id, caller, true);
      if refused.Some? {
        return Err(refused.value);
      }
      var proposals := BindAllocations(records[id].allocations, records[id].capacity);
      if proposals.Err? {
        return Err(proposals.error);
      }
      FinaliseAllocations(id, proposals.value);
      records := records[id := records[id].(status := Bound)];
      assert records == old(records)[id := BoundRecord(old(records[id]), proposals.value)];
      return Ok(id);
    }

    /** The repository write behind `bind`: the final allocations, and a log entry for each of them. */
    method FinaliseAllocations(id: nat, finals: seq<Allocation>)
      requires id < |records|
      modifies this`records
      ensures records == old(records)[id := old(records[id]).(allocations := finals, events := old(records[id].events) + BindEvents(finals))]
    {
      ghost var before := records[id];
      records := records[id := records[id].(allocations := finals)];
      assert before.events + BindEvents(finals)[..0] == before.events;
      for i := 0 to |finals|
        invariant id < |records|
        invariant records == old(records)[id := before.(allocations := finals, events := before.events + BindEvents(finals)[..i])]
      {
        AppendEvent(id, records[id], Event(BOUND, finals[i].org, finals[i].shareBps, finals[i].amount));
        assert BindEvents(finals)[..i + 1] == BindEvents(finals)[..i] + [BindEvents(finals)[i]];
        assert records[id].events == before.events + BindEvents(finals)[..i + 1];
      }
      assert BindEvents(finals)[..|finals|] == BindEvents(finals);
    }

    method SetCommitment(caller: string, amount: nat) returns (r: Outcome)
      modifies this
      ensures (State(), r) == Step(old(State()), Command.SetCommitment(caller, amount))
    {
      commitments := commitments[caller := amount];
      return Ok(0);
    }
  }
}
