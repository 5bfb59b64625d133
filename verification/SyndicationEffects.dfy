/**
 What each call on the syndication service requires and does, in its caller's terms: exactly when it is
 accepted, why it is refused, what it writes, and that it writes nothing else.
 (`apps/api/src/syndication/syndication.service.ts`)
 */
module SyndicationEffects {
  import opened Prelude
  import opened Sequences
  import opened Money
  import opened Syndication
  import opened SyndicationMachine

  /** Only record `id` differs, and of it only allocations, events and status. */
  ghost predicate TouchesOnly(before: Ledger, after: Ledger, id: nat) {
    && after.commitments == before.commitments && |after.records| == |before.records|
    && (forall k :: 0 <= k < |before.records| && k != id ==> after.records[k] == before.records[k])
    && (id < |before.records| ==>
          && after.records[id].listing == before.records[id].listing
          && after.records[id].owner == before.records[id].owner
          && after.records[id].capacity == before.records[id].capacity)
  }

  lemma OpenEffect(s: Ledger, caller: string, listingId: string, listing: Option<Listing>)
    ensures var (after, outcome) := Step(s, OpenListing(caller, listingId, listing));
            var taken := exists i :: 0 <= i < |s.records| && s.records[i].listing == listingId;
            && outcome == (match listing
                 case None => Err(NotFound)
                 case Some(l) =>
                   if l.owner != caller then Err(Unauthorised) else if !l.isOpen then Err(ListingNotOpen)
                   else if taken then Err(AlreadySyndicated) else Ok(|s.records|))
            && (outcome.Err? ==> after == s)
            && (outcome.Ok? ==>
                  && after.commitments == s.commitments && |after.records| == |s.records| + 1
                  && (forall k :: 0 <= k < |s.records| ==> after.records[k] == s.records[k])
                  && after.records[|s.records|] == Record(listingId, caller, listing.value.capacity, Open, [], []))
  {
  }

  lemma Proposable(s: Ledger, caller: string, id: nat, shareBps: int, liveInterest: bool, maxExposure: Option<int>)
    ensures id < |s.records| ==> var amount := ScaleByBps(s.records[id].capacity, shareBps);
            Step(s, Propose(caller, id, shareBps, liveInterest, maxExposure)).1.Ok?
            <==> && s.records[id].status == Open && liveInterest
                 && 1 <= shareBps <= 10_000
                 && (forall i :: 0 <= i < |s.records[id].allocations| ==> s.records[id].allocations[i].org != caller)
                 && Sum(Shares(s.records[id].allocations)) + shareBps <= 10_000
                 && (maxExposure.Some? ==> amount <= maxExposure.value)
                 && caller in s.commitments
                 && (amount == 0 || Exposure(s.records, caller) + amount <= s.commitments[caller])
  {
    if id < |s.records| && 1 <= shareBps <= 10_000 {
      ScaleWithin(s.records[id].capacity, shareBps);
    }
  }

  /**
   A proposal is accepted exactly on an open syndication, with a live interest, a share that is in range,
   free and not a second one, within the declared limit and within the uncommitted capital. It appends the
   caller's allocation and its log entry.
   */
  lemma ProposeEffect(s: Ledger, caller: string, id: nat, shareBps: int, liveInterest: bool, maxExposure: Option<int>)
    ensures var (after, outcome) := Step(s, Propose(caller, id, shareBps, liveInterest, maxExposure));
            && (id >= |s.records| ==> outcome == Err(NotFound))
            && (outcome.Err? ==> after == s)
            && (outcome.Ok? ==>
                  && outcome.value == id && TouchesOnly(s, after, id)
                  && var amount := ScaleByBps(s.records[id].capacity, shareBps);
                     && after.records[id].status == Open
                     && after.records[id].allocations == s.records[id].allocations + [Allocation(caller, shareBps, amount)]
                     && after.records[id].events == s.records[id].events + [Event(PROPOSED, caller, shareBps, amount)])
  {
  }

  /** Of several reasons to refuse a proposal the first in this order is reported. */
  lemma ProposeRefusal(s: Ledger, caller: string, id: nat, shareBps: int, liveInterest: bool, maxExposure: Option<int>)
    requires id < |s.records|
    ensures var outcome := Step(s, Propose(caller, id, shareBps, liveInterest, maxExposure)).1;
            var allocations := s.records[id].allocations;
            var first :=
              if s.records[id].status != Open then NotOpen
              else if !liveInterest then NoLiveInterest
              else if !(1 <= shareBps <= 10_000) then InvalidShare
              else if exists i :: 0 <= i < |allocations| && allocations[i].org == caller then DuplicateAllocation
              else if Sum(Shares(allocations)) + shareBps > 10_000 then OverAllocation
              else if maxExposure.Some? && ScaleByBps(s.records[id].capacity, shareBps) > maxExposure.value then ExposureLimitExceeded
              else if caller !in s.commitments then NoCapitalCommitment
              else InsufficientCommittedCapital;
            outcome.Err? ==> outcome.error == first
  {
  }

  /** A withdrawal is accepted exactly on an open syndication in which the caller has a share; it deletes that one and logs it. */
  lemma WithdrawEffect(s: Ledger, caller: string, id: nat)
    requires Valid(s)
    ensures var (after, outcome) := Step(s, Withdraw(caller, id));
            && outcome == (
                 if id >= |s.records| then Err(NotFound) else if s.records[id].status != Open then Err(NotOpen)
                 else if forall i :: 0 <= i < |s.records[id].allocations| ==> s.records[id].allocations[i].org != caller
                 then Err(AllocationNotFound) else Ok(id))
            && (outcome.Err? ==> after == s)
            && (outcome.Ok? ==> TouchesOnly(s, after, id) && after.records[id].status == Open && Leaves(s.records[id], after.records[id], caller))
  {
    if Step(s, Withdraw(caller, id)).1.Ok? {
      assert ValidRecord(s.records[id]);
      var i := FindOrg(s.records[id].allocations, caller);
      WithoutDeletesOne(s.records[id].allocations, i);
      assert LeavesFrom(s.records[id], Step(s, Withdraw(caller, id)).0.records[id], caller, i);
    }
  }

  ghost predicate Leaves(before: Record, after: Record, org: string) {
    exists i :: 0 <= i < |before.allocations| && LeavesFrom(before, after, org, i)
  }

  /** The allocation at `i`, the organisation's, is gone, and the log says so. */
  predicate LeavesFrom(before: Record, after: Record, org: string, i: nat)
    requires i < |before.allocations|
  {
    var gone := before.allocations[i];
    && gone.org == org
    && after.allocations == before.allocations[..i] + before.allocations[i + 1..]
    && after.events == before.events + [Event(REMOVED, org, gone.shareBps, gone.amount)]
  }

  /**
   Binding is accepted exactly from the owner of an open syndication whose shares come to 10000. Every
   participant keeps its place and share, the amounts become a largest-remainder split of the capacity, and
   each is logged in order.
   */
  lemma BindEffect(s: Ledger, caller: string, id: nat)
    requires Valid(s)
    ensures var (after, outcome) := Step(s, Bind(caller, id));
            && outcome == (
                 if id >= |s.records| then Err(NotFound) else if s.records[id].owner != caller then Err(Unauthorised)
                 else if s.records[id].status != Open then Err(NotOpen)
                 else if Sum(Shares(s.records[id].allocations)) != 10_000 then Err(IncompleteAllocation) else Ok(id))
            && (outcome.Err? ==> after == s)
            && (outcome.Ok? ==> TouchesOnly(s, after, id) && BindsTo(s.records[id], after.records[id]))
  {
    if id < |s.records| && s.records[id].status == Open {
      assert ValidRecord(s.records[id]);
      if Sum(Shares(s.records[id].allocations)) == 10_000 {
        ApportionIsLargestRemainder(s.records[id].capacity, Shares(s.records[id].allocations));
        if s.records[id].owner == caller {
          assert Amounts(Step(s, Bind(caller, id)).0.records[id].allocations)
              == Apportion(s.records[id].capacity, Shares(s.records[id].allocations));
        }
      }
    }
  }

  ghost predicate BindsTo(before: Record, after: Record) {
    var n := |before.allocations|;
    && after.status == Bound && |after.allocations| == n && |after.events| == |before.events| + n
    && (forall i :: 0 <= i < n ==>
          && after.allocations[i].org == before.allocations[i].org && after.allocations[i].shareBps == before.allocations[i].shareBps
          && after.events[|before.events| + i]
             == Event(BOUND, after.allocations[i].org, after.allocations[i].shareBps, after.allocations[i].amount))
    && before.events <= after.events
    && ValidWeights(Shares(before.allocations))
    && LargestRemainder(before.capacity, Shares(before.allocations), Amounts(after.allocations))
    && InQueueOrder(before.capacity, Shares(before.allocations), Amounts(after.allocations))
  }

  /** A commitment replaces the caller's, and nothing else. */
  lemma SetCommitmentEffect(s: Ledger, caller: string, amount: nat, p: string)
    ensures var (after, outcome) := Step(s, SetCommitment(caller, amount));
            && outcome.Ok? && after.records == s.records
            && caller in after.commitments && after.commitments[caller] == amount
            && (p != caller ==> (p in after.commitments <==> p in s.commitments))
            && (p != caller && p in s.commitments ==> after.commitments[p] == s.commitments[p])
  {
  }
}
