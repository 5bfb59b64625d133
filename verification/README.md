# Verified model of the insurance-capital marketplace

The repository is a marketplace in which risks are described as a graph, capital providers syndicate
them, claims are paid by the bound providers, and reinsurance programs cede losses in layers. This
project models the four parts whose correctness spans many operations, and proves what they keep over
whole runs.

| part | files |
|---|---|
| exact division of money | `Sequences.dfy`, `Doubles.dfy`, `Money.dfy`, `Apportionment.dfy`, `DoubleRange.dfy` |
| syndication and the cross-syndication capital check | `Syndication.dfy`, `SyndicationMachine.dfy`, `SyndicationEffects.dfy`, `CapitalDrift.dfy`, `SyndicationService.dfy` |
| claims, payouts and coverage | `Claims.dfy`, `ClaimsMachine.dfy`, `ClaimsRuns.dfy`, `ClaimsEffects.dfy`, `Coverage.dfy`, `CoverageRuns.dfy`, `ClaimsWitnesses.dfy`, `PayoutDrift.dfy`, `ClaimsService.dfy` |
| reinsurance | `Reinsurance.dfy`, `AggregateLayers.dfy`, `ReinsuranceMachine.dfy`, `ReinsuranceRuns.dfy`, `ReinsuranceEffects.dfy`, `ReinsuranceService.dfy` |
| risk graph, its queries and the simulation | `Ontology.dfy`, `GraphModel.dfy`, `Distances.dfy`, `Chains.dfy`, `RiskGraphs.dfy`, `Queries.dfy`, `Simulation.dfy`, `GraphService.dfy` |

How the parts fit together:

- Each stateful service is a class whose fields are the in-memory repositories. Every method is proved
  to perform exactly one step of a state machine on values, refused calls and their errors included;
  the theorems about runs are lemmas about that machine.
- What the steps themselves mean is stated apart from how they are computed: `SyndicationEffects`,
  `ClaimsEffects` and `ReinsuranceEffects` say of each call exactly when it is accepted, which error refuses
  it, what it writes and that it writes nothing else.
- The claims machine runs beside the syndication machine, so its theorems cover every interleaving of
  calls on both services.
- Traversals and queries are specified by walks and distances only, never by the search that computes
  them, and `Chains` and the `Meaning` lemmas of `Queries` and `Simulation` bring those down to the ends of
  stored edges: chains of dependencies, each starting where the one before ended.

Modelling choices:

- Amounts are mathematical integers of minor units in one currency; weights, shares and basis points
  are integers. The source computes with doubles, and where that decides anything the model follows it:
  `Doubles` rounds quotients and products to 53 bits, and they settle the order of equal fractions in the
  remainder queue (`Before`) and the rounding of exact halves in `scaleMoney` (`ScaleByBps`).
  `DoubleRange` proves that the whole computation in doubles then gives the model's result, as long as
  amount times total weight is below 2^53 and, for `scaleMoney`, the amount is at most 2^53 / 40000.
- What `Apportionment` proves of a split it proves of every split that obeys `LargestRemainder`, whoever
  comes first among equal fractions.
- The utilisation in a position is rounded half up; in doubles an exact half of a basis point may go down.
- Records of syndications, claims and programs are only ever appended, so a record's position serves
  as its identifier: fresh when created, valid for ever. Layer identifiers come from a counter. Graph
  identifiers are strings, as in the source, and freshness is an explicit condition where it matters.
- What the marketplace knows (the listing, a live interest, a declared exposure limit) is a parameter
  of the call that reads it. Positive amounts are taken as non-negative ones.
- A `Set` that the source fills in insertion order is a sequence without repetition in the indexes of
  `RiskGraph`; result lists that the source sorts for display are sets and maps. Where two COVERS,
  ASSUMES, SUPPORTS or PROTECTS edges join the same nodes, such a list names a node twice and the set once.
- An aggregate layer without stored state starts from zero, so the optional state of a layer is a
  plain value here.

Where the code and its documentation differ, the model follows the code:

- `advance` is documented for three targets and accepts any legal one. `AdvanceAloneApprovesUnpaid`
  shows that it can approve a claim that has neither a loss nor payouts, and
  `PaidIffNeverApprovedUnpaid` states exactly which runs keep payouts and approvals together.
  `PayoutsFail` is a run from the empty state that does not.
- A claim above the ceiling is documented never to be approved without a recorded approval. A generic
  `advance` to APPROVED does just that, as the run in `ApprovalFails` shows; `RecordedIffNeverSkipped`
  states exactly which runs avoid it.
  (A loss equal to the ceiling is approved automatically, although documented for human review.)
- Prior losses plus the claimed one are documented never to exceed the bound capacity. The test is made
  in `calculateLoss` and not repeated in `decide`. `TwinClaimsOverdraw` shows two claims that together
  exceed it and `CoverageFails` a run from the empty state with two such claims,
  `CoveredIffNeverOverdrawn` states exactly which runs stay within it, and `SerialRunsAreCovered` gives a
  discipline that suffices.
- A proposal is admitted with an amount rounded to the nearest unit, and bound with its largest-remainder amount,
  which can be one unit more. So a provider's exposure can pass its commitment: `CapitalDriftBound`
  bounds by how much, `DriftBoundIsAttained` shows that it occurs, and `WithinHighestIffNeverOverrun`
  and `WithinCurrentIffNeverOverrun` state exactly in which runs it does not, by a condition that can be
  checked before each call.
- The kind of a reinsurance layer is stored beside its parameters, which have a kind of their own. The
  service reads aggregate state by the stored one and writes it back by the other. A controller makes
  them agree; where they do not, an aggregate layer starts from zero each time, and
  `LimitHoldsInRunsIffKindAgrees` shows that agreement is exactly what its limit needs.
- Re-using an edge id between other nodes leaves stale index entries; `StoreIsCoherent` and
  `RiskGraph.AddEdge` say exactly when the indexes stay coherent. The cycle check then decides what the
  indexes connect, stale entries included: `StaleEntryRefuses` is a state in which that refuses too much,
  and `RefusalByIndexes` and `RunsAreSound` show that it never lets a cycle through.
- `verifiedOnly` is documented to exclude AI-inferred edges. It filters dependencies only: ownership and
  exposure edges are read unfiltered. `DependenciesAreVerified` shows that dependencies and dependents
  depend on verified edges alone; `InferredOwnershipCounts` and `InferredExposureCounts` show that what can
  fail (and with it correlation) and who is exposed do not.

## Model

| member | source | states |
|---|---|---|
| Doubles.QuotientError | packages/domain/src/money.ts:94 | a quotient of doubles misses the exact one by at most half a unit in its 53rd bit |
| Doubles.RoundEvenMeaning | packages/domain/src/money.ts:67-72 | rounding to a significand gives q if and only if q is a nearest integer, and at an exact half the even one |
| Doubles.QuotientMeaning | packages/domain/src/money.ts:67-95 | a quotient has the significand q if and only if q is nearest to the exact quotient scaled to 53 bits, and between two equally near ones the even one |
| Money.RoundDivNearest | packages/domain/src/money.ts:67-72 | rounding a quotient is to the nearest unit with halves up: the result is q exactly when the exact value lies in [q - 1/2, q + 1/2) |
| Money.ScaleWithin | packages/domain/src/money.ts:67-72 | between 0 and 100 percent of a non-negative amount rounds to something between zero and the amount |
| Money.ScaleIsNearest | packages/domain/src/money.ts:67-72 | a scaled amount is a nearest unit to the exact one, an exact half going the way its double goes |
| Money.AllocateMoney | packages/domain/src/money.ts:79-109 | succeeds exactly on non-empty, non-negative weights with a positive total, with the right error otherwise, and returns the largest-remainder split in queue order with the sign restored |
| Money.WeightErrorMeaning | packages/domain/src/money.ts:79-90 | which weights are refused and with which error: none, a negative one, or nothing but zeros |
| Money.HandOutRemainder | packages/domain/src/money.ts:102-106 | the remainder loop gives one unit to each of the first indices in queue order and never wraps |
| Money.LeftoverBound | packages/domain/src/money.ts:94-96 | fewer units are left over than there are parts |
| Money.ApportionIsLargestRemainder | packages/domain/src/money.ts:91-108 | the computed split sums to the total, gives each part its floor or one more, serves nobody while a larger fraction goes without, and serves in queue order |
| Money.LargestRemainderUnique | packages/domain/src/money.ts:98-106 | with the queue order of the source, by the fractions of the doubles and then by index, those conditions leave only one possible split |
| Money.TieBreakMattersIffTied | packages/domain/src/money.ts:98-100 | the rule alone determines the split if and only if no fraction is shared by a part that got a unit and a part that did not |
| Money.TwoRightSplits | packages/domain/src/money.ts:98-106 | such ties occur: two units over 6667, 1667 and 1666 basis points have two splits that obey the rule |
| Money.AllocateConserves | packages/domain/src/money.ts:75-78 | the parts sum to the total for either sign, and negating the total negates every part |
| Apportionment.WithinOneUnit | packages/domain/src/money.ts:94-106 | in every split by the rule each part lies strictly within one unit of its exact share, hence equals the share when the share is whole |
| Apportionment.NoUnitForWholeShare | packages/domain/src/money.ts:98-106 | in every split by the rule a part whose exact share is whole, zero weight included, gets no extra unit |
| Apportionment.LargerWeightNoLess | packages/domain/src/money.ts:94-106 | in every split by the rule a larger weight never gets less |
| Apportionment.EqualWeights | packages/domain/src/money.ts:98-106 | equal weights get amounts at most one unit apart, and the earlier never less |
| Apportionment.LargestRemainderIsOptimal | packages/domain/src/money.ts:79-109 | no other integer split with the same sum has a smaller total absolute deviation from the exact shares than a split by the rule |
| Apportionment.RaisedIffServed | packages/domain/src/money.ts:102-106 | a part gets a left-over unit exactly if fewer parts come before it in the queue than units are left over |
| DoubleRange.FloorAgrees | packages/domain/src/money.ts:94-95 | within the range of exact products `Math.floor` of a share in doubles is the whole part of the exact share |
| DoubleRange.DoublesKeepOrder | packages/domain/src/money.ts:98-100 | within that range comparing the fractions of the doubles and then the indices is the order of the queue: doubles never contradict different fractions |
| DoubleRange.ScaleAgrees | packages/domain/src/money.ts:67-72 | `Math.round` of the double product is the model's scaled amount |
| DoubleRange.DoublesDecideTie | packages/domain/src/money.ts:98-106 | two units over 6667, 1667 and 1666 go to the first and second part, since 1.3334 - 1 is below 0.3334 in doubles |
| DoubleRange.HalfGoesDown | packages/domain/src/money.ts:67-72 | 29 percent of 50 units, exactly 14.5, is scaled to 14 |
| DoubleRange.TieGoesToEven | packages/domain/src/money.ts:67-72 | 35 percent of 10 units is scaled to 4: the double product lies halfway between two doubles and goes to the even one, 3.5 |
| Syndication.BindMovesByAtMostOne | packages/domain/src/syndication.ts:130-145 | a bound amount differs from a nearest indicative one by at most one unit, and is larger exactly when the participant is served a left-over unit and was proposed with its share rounded down |
| Syndication.PartAgainstNearest | packages/domain/src/syndication.ts:74-145 | the same for every split by the rule and every nearest amount, whoever comes first among equal fractions and whichever way halves go |
| Syndication.WithoutDeletesOne | packages/domain/src/syndication.ts:87-97 | removing an organisation deletes its one allocation and keeps the rest in order |
| Syndication.ComputePosition | packages/domain/src/capital-ledger.ts:65-100 | the loop totals bound and open contributions separately, ignores cancelled ones, never shows negative availability, and reports utilisation in basis points |
| SyndicationMachine.RunKeepsValid | apps/api/src/persistence/in-memory.ts:394-485 | in every reachable state replaying the event log from empty yields the allocations, organisations are distinct, shares total at most 10000, and a bound syndication has shares of exactly 10000 with the exact split |
| SyndicationMachine.ReplayBind | apps/api/src/persistence/in-memory.ts:469-480 | replaying the first k bind events turns the first k proposals into their final form and no others |
| SyndicationMachine.BoundSumsToCapacity | packages/domain/src/syndication.ts:130-145 | the amounts of a bound syndication sum to its capacity |
| SyndicationMachine.RunEvolves | apps/api/src/syndication/syndication.service.ts:288-302 | over any run a syndication's terms are fixed, its log only grows, and once bound nothing about it changes |
| SyndicationMachine.BoundWithinExposureLimitPlusOne | packages/domain/src/syndication.ts:75-84 | an accepted proposal respects the declared exposure limit; bound later, it passes the limit by at most one unit, and exactly if the proposal filled the limit with its share rounded down and binding serves it a left-over unit |
| SyndicationMachine.ProposeThenWithdraw | apps/api/src/syndication/syndication.service.ts:201-219 | withdrawing right after proposing restores every allocation and leaves exactly the two events |
| SyndicationEffects.OpenEffect | apps/api/src/syndication/syndication.service.ts:57-97 | opening reports the first of four errors that applies and changes nothing, or appends exactly one open record with the terms of the listing |
| SyndicationEffects.Proposable | apps/api/src/syndication/syndication.service.ts:106-199 | a proposal is accepted if and only if the syndication is open, the interest live, the share in range, still free and not a second one, the amount within the declared limit, and the exposure within the commitment |
| SyndicationEffects.ProposeRefusal | apps/api/src/syndication/syndication.service.ts:106-199 | of several reasons to refuse, the first in the order of the checks is reported |
| SyndicationEffects.ProposeEffect | apps/api/src/syndication/syndication.service.ts:106-199 | an accepted proposal appends one allocation and one event to its record, and nothing else changes |
| SyndicationEffects.WithdrawEffect | apps/api/src/syndication/syndication.service.ts:201-219 | a withdrawal is accepted if and only if the caller has a share in an open syndication; it deletes that one and logs it |
| SyndicationEffects.BindEffect | apps/api/src/syndication/syndication.service.ts:233-262 | binding is accepted if and only if the owner asks, the syndication is open and its shares come to 10000; places and shares stay, amounts become a largest-remainder split, and each is logged in order |
| SyndicationEffects.SetCommitmentEffect | apps/api/src/capital/capital.service.ts:37-55 | the caller has the amount committed, and nobody else is affected |
| CapitalDrift.ProposalWithinCommitment | packages/domain/src/capital-ledger.ts:109-124 | an accepted proposal of a positive amount leaves the provider's exposure over all syndications within its current commitment, and nobody else's exposure changes |
| CapitalDrift.BindAddsAtMostOne | apps/api/src/syndication/syndication.service.ts:233-262 | binding raises a provider's exposure by one unit if it serves the provider a unit that its proposal had rounded away, by nothing otherwise, and counts one more bound syndication for each participant |
| CapitalDrift.CapitalDriftBound | apps/api/src/syndication/syndication.service.ts:106-262 | after any interleaving of calls a provider's exposure is at most its highest commitment plus its number of bound allocations |
| CapitalDrift.HighestMeaning | packages/domain/src/capital-ledger.ts:102-124 | the highest commitment of a run is one that was declared, and none declared is higher |
| CapitalDrift.BoundCountMeaning | apps/api/src/syndication/syndication.service.ts:233-262 | the count in the bound is the number of bound syndications in which the provider has a share |
| CapitalDrift.StepPassesLimit | apps/api/src/syndication/syndication.service.ts:106-262 | a call takes a provider from within a limit no lower than its commitment to above it if and only if it is a bind that raises the provider with nothing of the limit left |
| CapitalDrift.WithinHighestIffNeverOverrun | packages/domain/src/capital-ledger.ts:102-124 | over any run a provider's exposure never passes the highest commitment declared so far if and only if no call was such a bind |
| CapitalDrift.WithinCurrentIffNeverOverrun | packages/domain/src/capital-ledger.ts:102-124 | the same for the commitment in force: never passed if and only if no call was such a bind or lowered the commitment below the exposure |
| CapitalDrift.DriftBoundIsAttained | packages/domain/src/capital-ledger.ts:102-124 | a run in which a provider committed to 1 ends up bound for 2 |
| SyndicationServices.PositionIsExposure | apps/api/src/persistence/in-memory.ts:491-510 | allocated plus reserved over the listed contributions is the exposure summed over every syndication |
| SyndicationMachine.ExposureMeaning | apps/api/src/persistence/in-memory.ts:491-510 | exposure is the sum of the amounts in the provider's name over every syndication that is not cancelled |
| SyndicationServices.ContributionsMeaning | apps/api/src/persistence/in-memory.ts:491-510 | a contribution is listed if and only if the organisation holds that amount in a syndication of that status |
| SyndicationServices.SyndicationService.Open | apps/api/src/syndication/syndication.service.ts:57-97 | performs the opening step, with its four refusals in order |
| SyndicationServices.SyndicationService.ListAllocationsForOrganisation | apps/api/src/persistence/in-memory.ts:491-510 | the nested loops collect exactly the organisation's allocations, in insertion order |
| SyndicationServices.SyndicationService.Propose | apps/api/src/syndication/syndication.service.ts:106-199 | performs the proposal step: every check in order, then the allocation and its event, or nothing |
| SyndicationServices.SyndicationService.Withdraw | apps/api/src/syndication/syndication.service.ts:201-219 | performs the withdrawal step |
| SyndicationServices.SyndicationService.Bind | apps/api/src/syndication/syndication.service.ts:233-262 | performs the binding step: exact amounts, one event for each participant, status BOUND, or nothing |
| SyndicationServices.SyndicationService.SetCommitment | apps/api/src/capital/capital.service.ts:37-55 | replaces the provider's commitment and nothing else |
| Claims.PayoutsAreExact | packages/domain/src/claims.ts:162-177 | payouts name the bound providers in order and sum to the loss |
| Claims.PayoutWithinOneUnit | packages/domain/src/claims.ts:162-177 | each payout is strictly within one unit of the provider's pro-rata share |
| ClaimsMachine.NextEvolves | packages/domain/src/claims.ts:39-49 | a call moves a claim's status only up the rank order, writes a loss at most once, and never unpays a claim |
| ClaimsEffects.MovesMeaning | packages/domain/src/claims.ts:39-49 | the ways a claim can move, and no others |
| ClaimsEffects.ReportEffect | apps/api/src/claims/claims.service.ts:49-82 | a report is accepted if and only if the owner of a known syndication makes it, and appends one empty REPORTED claim |
| ClaimsEffects.AdvanceEffect | apps/api/src/claims/claims.service.ts:110-145 | `advance` is accepted if and only if the move is legal and, into COVERAGE_CONFIRMED, the syndication bound; the status becomes the target and nothing else changes |
| ClaimsEffects.CalculateLossEffect | apps/api/src/claims/claims.service.ts:155-202 | a calculation is accepted if and only if coverage is confirmed and the loss fits what is left; the loss and its review are stored, and the claim awaits approval above the ceiling or is approved and paid out |
| ClaimsEffects.DecideEffect | apps/api/src/claims/claims.service.ts:209-269 | a decision is taken if and only if the claim awaits approval, and is stored with it; rejection leaves it REJECTED with nothing paid, approval APPROVED with its loss divided among the providers |
| ClaimsEffects.SettleEffect | apps/api/src/claims/claims.service.ts:272-291 | settlement is accepted if and only if the claim is approved; the status becomes SETTLED and nothing else changes |
| ClaimsEffects.EndIsFinal | packages/domain/src/claims.ts:39-49 | no call changes a rejected or settled claim or its payouts |
| ClaimsEffects.RejectedForGood | packages/domain/src/claims.ts:39-49 | nor does any run of calls on both services |
| ClaimsRuns.RunLinked | apps/api/src/claims/claims.service.ts:117-129 | in every reachable state a claim at or past COVERAGE_CONFIRMED belongs to a bound syndication |
| ClaimsRuns.StatusChangesBounded | packages/domain/src/claims.ts:39-49 | over any run, however long, a claim changes status at most seven times |
| ClaimsEffects.StatusChangesMeaning | packages/domain/src/claims.ts:39-49 | what is bounded there is the number of calls that left the claim in another status |
| ClaimsRuns.RunSound | apps/api/src/claims/claims.service.ts:110-341 | after any run with documented `advance` targets, whatever ceilings are given, each claim's stored loss, review, decision and payouts agree with its status |
| ClaimsRuns.PayoutsEqualLosses | apps/api/src/claims/claims.service.ts:318-341 | after such a run a claim has payouts exactly when approved or settled, they sum to its loss, and one that needed review got there by a recorded approval |
| ClaimsRuns.PaidIffPayoutsStep | apps/api/src/claims/claims.service.ts:110-145 | from a state where payouts match approvals, a call breaks the match exactly if it advances a claim to APPROVED or approves one that has no loss |
| ClaimsRuns.PaidIffNeverApprovedUnpaid | apps/api/src/claims/claims.service.ts:110-341 | over any run, payouts match approvals at the end if and only if no call was of that kind |
| ClaimsRuns.RecordedIffNeverSkipped | packages/domain/src/claims.ts:103-109 | over any run with any targets, every approved or settled claim that needed review carries a recorded approval at the end if and only if no call advanced such a claim from AWAITING_APPROVAL to APPROVED |
| ClaimsRuns.AboveCeilingNeedsApproval | apps/api/src/claims/claims.service.ts:155-202 | in a run without such a call, a claim calculated above the ceiling it was given is approved only by a recorded decision |
| ClaimsRuns.AdvanceAloneApprovesUnpaid | apps/api/src/claims/claims.service.ts:110-145 | on any bound syndication six calls approve a claim with neither loss nor payouts |
| Coverage.WaysToApprove | apps/api/src/claims/claims.service.ts:155-269 | a claim is approved with the loss it had, or with one that has just passed the coverage test |
| ClaimsMachine.ApprovedLossMeaning | apps/api/src/persistence/in-memory.ts:641-650 | the prior loss of the coverage test is the sum of the losses stored for approved and settled claims on the syndication |
| Coverage.CoveredStep | packages/domain/src/claims.ts:74-100 | from a covered state a call breaks coverage exactly if it approves a claim whose loss no longer fits the capacity |
| CoverageRuns.CoveredIffNeverOverdrawn | packages/domain/src/claims.ts:74-100 | over any run, approved and settled losses fit every capacity at the end if and only if no call ever approved beyond it |
| CoverageRuns.SerialRunsAreCovered | apps/api/src/claims/claims.service.ts:155-269 | if no approval on a syndication falls between another claim's loss calculation and its approval, approved and settled losses never exceed capacity |
| CoverageRuns.AutomaticRunsAreSerial | apps/api/src/claims/claims.service.ts:155-202 | runs in which every approval is automatic are serial |
| CoverageRuns.TwinClaimsOverdraw | apps/api/src/claims/claims.service.ts:209-269 | wherever the remaining capacity is above the ceiling, two claims for all of it are both approved and the total exceeds capacity by that loss |
| ClaimsWitnesses.CoverageFails | apps/api/src/claims/claims.service.ts:209-269 | a run of both services from the empty state after which approved losses exceed a capacity |
| ClaimsWitnesses.TwinRunIsNotSerial | apps/api/src/claims/claims.service.ts:209-269 | the run that exceeds a capacity is not serial |
| ClaimsWitnesses.PayoutsFail | apps/api/src/claims/claims.service.ts:110-145 | a run from the empty state after which an approved claim has no payouts |
| ClaimsWitnesses.AdvanceSkipsApproval | apps/api/src/claims/claims.service.ts:110-145 | wherever the remaining capacity is above the ceiling, a claim for it can be advanced to APPROVED with no recorded decision |
| ClaimsWitnesses.ApprovalFails | packages/domain/src/claims.ts:103-109 | a run from the empty state after which an above-ceiling claim is approved without a recorded decision |
| PayoutDrift.CumulativePayoutDrift | packages/domain/src/claims.ts:162-177 | after any run with documented `advance` targets, over K approved claims a provider's payouts are within K units of its share of the total loss, and at most its bound amount plus K while that total is within capacity |
| PayoutDrift.PaidClaimsMeaning | packages/domain/src/claims.ts:162-177 | K in that bound is the number of claims on the syndication that are approved or settled |
| PayoutDrift.PaidToMeaning | packages/domain/src/claims.ts:162-177 | what a provider is paid is the sum of its entries in the payouts recorded for those claims |
| PayoutDrift.FullLossPaysBoundAmounts | packages/domain/src/syndication.ts:130-145 | after any run with documented `advance` targets a claim for the whole capacity pays every provider exactly its bound amount |
| ClaimsServices.ClaimsService.Report | apps/api/src/claims/claims.service.ts:49-82 | performs the report step |
| ClaimsServices.ClaimsService.Advance | apps/api/src/claims/claims.service.ts:110-145 | performs the advance step for any target |
| ClaimsServices.ClaimsService.TotalApprovedLoss | apps/api/src/persistence/in-memory.ts:641-650 | sums the losses of approved and settled claims on the syndication |
| ClaimsServices.ClaimsService.CalculateLoss | apps/api/src/claims/claims.service.ts:155-202 | performs the coverage test, classification, status write and, if automatic, the payouts |
| ClaimsServices.ClaimsService.Decide | apps/api/src/claims/claims.service.ts:209-269 | performs the decision step, as `DecideEffect` describes it, leaving the status written when the payouts then fail |
| ClaimsServices.ClaimsService.Settle | apps/api/src/claims/claims.service.ts:272-291 | performs the settlement step |
| ClaimsServices.ClaimsService.RecordPayoutsAndAudit | apps/api/src/claims/claims.service.ts:318-341 | records the division of the claim's loss among the bound providers, or reports why it cannot |
| Reinsurance.QuotaShareMeaning | packages/domain/src/reinsurance.ts:126-132 | a quota share cedes the proportion rounded half up, or the cap where that is less |
| Reinsurance.ExcessMeaning | packages/domain/src/reinsurance.ts:135-139 | excess of loss cedes exactly the slice between attachment and attachment plus limit, as an unused aggregate layer would |
| Reinsurance.LayerMonotone | packages/domain/src/reinsurance.ts:126-169 | for every kind of layer a larger loss lowers neither the ceded nor the retained part, and ceded lies between zero and the loss |
| Reinsurance.ProgramMonotone | packages/domain/src/reinsurance.ts:180-222 | for any valid layers and fixed states, raising the gross loss lowers neither total ceded nor net retained |
| Reinsurance.ProgramConserves | packages/domain/src/reinsurance.ts:193-221 | each layer is presented what the one before retained, cedes between zero and all of it, and ceded amounts plus net equal gross |
| Reinsurance.ApplyReinsuranceProgram | packages/domain/src/reinsurance.ts:180-222 | refuses exactly negative losses and malformed layers, and otherwise returns the layers' results in ascending order |
| Reinsurance.SortKeeps | packages/domain/src/reinsurance.ts:190 | application order is a sorted permutation of the stored layers |
| Reinsurance.SortIgnoresStorageOrder | packages/domain/src/reinsurance.ts:190 | with unique orders the application order does not depend on how layers are stored |
| Reinsurance.SortIsStable | packages/domain/src/reinsurance.ts:190 | layers of the same order keep the order in which they are stored |
| AggregateLayers.AggregateStep | packages/domain/src/reinsurance.ts:147-169 | one more loss keeps the ceded total equal to the part of the gross total between attachment and attachment plus limit |
| AggregateLayers.AggregateClosedForm | packages/domain/src/reinsurance.ts:141-169 | after any losses from zero the ceded total is min(limit, max(0, gross - attachment)) |
| AggregateLayers.ReorderingIsNeutral | packages/domain/src/reinsurance.ts:141-169 | reordering the losses changes nothing about the layer's state |
| AggregateLayers.SplittingIsNeutral | packages/domain/src/reinsurance.ts:141-169 | presenting one loss in pieces changes nothing about the layer's state afterwards |
| ReinsuranceMachine.WriteBackIsLocal | apps/api/src/reinsurance/reinsurance.service.ts:126-134 | writing a cession back, layer by layer through a search over all programs, updates exactly the aggregate layers of its own program |
| ReinsuranceEffects.ParamsMeaning | packages/domain/src/reinsurance.ts:101-123 | exactly which layer parameters are accepted: shares up to and including all, attachments from zero, limits above it |
| ReinsuranceEffects.CreateEffect | apps/api/src/reinsurance/reinsurance.service.ts:40-78 | a program is accepted if and only if its layers are well-formed and their orders differ; one more program is stored, owned by the caller, its i-th layer with the order, kind and parameters of the i-th input, zero state and an unused id, with no cessions, and nothing else changes |
| ReinsuranceEffects.PerLayerMeaning | packages/domain/src/reinsurance.ts:194-218 | each layer is presented what the ones before left, cedes what its own terms say of that, and reports the next state if it is an aggregate one |
| ReinsuranceEffects.CedeAcceptance | apps/api/src/reinsurance/reinsurance.service.ts:97-160 | a cession is accepted if and only if the owner asks and the loss is not negative; it records one cession of that loss, and other programs keep everything |
| ReinsuranceEffects.WrittenOnce | apps/api/src/reinsurance/reinsurance.service.ts:129-137 | a cession writes state back once for each aggregate layer, and for no other |
| ReinsuranceEffects.CedeWritesState | apps/api/src/reinsurance/reinsurance.service.ts:114-137 | after a cession every stored layer keeps its terms, and an aggregate one has consumed what it was presented and what it ceded, from zero if it is stored under another kind |
| ReinsuranceRuns.CedeEffect | apps/api/src/reinsurance/reinsurance.service.ts:97-160 | a cession changes its own program's layers, records one result, and touches nothing else |
| ReinsuranceRuns.RunKeepsValid | apps/api/src/reinsurance/reinsurance.service.ts:40-160 | over any run layer ids stay distinct and orders unique, every recorded cession conserves its loss, and stored aggregate state matches the recorded cessions |
| ReinsuranceRuns.AggregateLimitHolds | apps/api/src/reinsurance/reinsurance.service.ts:126-134 | in every reachable state the consumed gross and ceded of an aggregate layer stored under that kind are the sums over recorded cessions, in closed form and within the limit |
| ReinsuranceRuns.MismatchedKindIsExcess | apps/api/src/reinsurance/reinsurance.service.ts:113-122 | an aggregate layer stored under another kind is handed no state, and cedes each loss as excess of loss |
| ReinsuranceRuns.MismatchedKindNeverFills | apps/api/src/reinsurance/reinsurance.service.ts:113-134 | such a layer cedes its whole limit again for every loss that reaches its top |
| ReinsuranceRuns.LimitHoldsIffKindAgrees | apps/api/src/reinsurance/reinsurance.service.ts:113-134 | the limit of a lone aggregate layer bounds what it cedes over every sequence of losses if and only if it is stored under its own kind |
| ReinsuranceRuns.StorageOrderIsIrrelevant | packages/domain/src/reinsurance.ts:190-218 | for any sequence of losses folded over a program, permuting the stored layers changes no cession |
| ReinsuranceRuns.RunIsCedeAll | apps/api/src/reinsurance/reinsurance.service.ts:97-160 | a run of cessions against one program stores the layers and appends the cessions of the fold, and touches nothing else |
| ReinsuranceRuns.StorageOrderIsIrrelevantInRuns | apps/api/src/reinsurance/reinsurance.service.ts:97-160 | in any two valid registries that store a program's layers in different orders, the same run of losses records the same cessions |
| ReinsuranceRuns.LimitHoldsInRunsIffKindAgrees | apps/api/src/reinsurance/reinsurance.service.ts:113-134 | a program created with one aggregate layer cedes within its limit in every run of cessions if and only if the stored kind is AGGREGATE |
| ReinsuranceServices.ReinsuranceService.CreateProgram | apps/api/src/reinsurance/reinsurance.service.ts:40-78 | performs the creation step, as `CreateEffect` describes it: refuses malformed layers and repeated orders, otherwise stores the program with fresh layer ids, the terms as given and zero state |
| ReinsuranceServices.ReinsuranceService.Cede | apps/api/src/reinsurance/reinsurance.service.ts:97-160 | performs the cession step: load state by the stored kind, compute, write back, record |
| ReinsuranceServices.ReinsuranceService.UpdateLayerAggregateState | apps/api/src/persistence/in-memory.ts:733-743 | updates the first layer with the id in the first program that has one |
| Ontology.LegalEdgesClimb | packages/domain/src/ontology.ts:59-179 | every legal edge strictly climbs a type order, except dependencies between assets |
| Ontology.OnlyDependenciesAreAcyclic | packages/domain/src/ontology.ts:207-209 | DEPENDS_ON is the only edge type declared acyclic |
| Ontology.RulesMeaning | packages/domain/src/ontology.ts:59-205 | the table allows exactly the listed triples |
| GraphModel.LegalGraphsAreAcyclic | packages/domain/src/ontology.ts:59-179 | a legal graph without dependency cycles has no directed cycle mixing any edge types |
| GraphModel.EdgeClosesCycle | packages/domain/src/graph.ts:78-89 | adding an edge keeps a graph acyclic if and only if its start cannot be reached from its end |
| GraphModel.RefusedIffCycle | packages/domain/src/graph.ts:65-94 | a legally typed edge between known nodes is refused if and only if it would close a dependency cycle |
| GraphModel.NodeKeepsSound | packages/domain/src/graph.ts:55-59 | storing a node keeps the graph sound exactly when the edges it already had are legal under its type |
| GraphModel.AcceptedEdgeKeepsSound | packages/domain/src/graph.ts:65-94 | storing an accepted edge keeps the graph legal and acyclic even where it replaces an edge of the same id |
| GraphModel.MoveKeepsSound | packages/domain/src/graph.ts:55-94 | a call leaves a sound graph sound if and only if it does not store a node again under a type its edges forbid |
| GraphModel.RunsAreSound | packages/domain/src/graph.ts:55-94 | over any run the graph stays legal and free of dependency cycles at every step if and only if no call did that |
| GraphModel.RunsAreAcyclic | packages/domain/src/graph.ts:55-94 | no run of `addNode` and `addEdge`, edge ids re-used or not, builds a cycle of any kind, unless a node is stored again under a type its edges forbid |
| GraphModel.WalkReverse | packages/domain/src/graph.ts:190-197 | a walk read backwards is a walk of the same length in the other direction |
| GraphModel.LinkMeaning | packages/domain/src/graph.ts:190-197 | which stored edges a traversal follows, and from which end to which |
| Chains.WalksAreChains | packages/domain/src/graph.ts:187-203 | walks along dependencies are chains of stored edges, each starting where the one before ended, and walks against them are chains read backwards |
| Chains.DistancesAreDepths | packages/domain/src/queries.ts:40-77 | distances along and against dependencies are lengths of shortest chains |
| Chains.OneDependency | packages/domain/src/queries.ts:40-77 | a stored admissible dependency puts its end at depth one from its start |
| Chains.RefusalMeaning | packages/domain/src/graph.ts:65-94 | an edge is refused for an unknown start, an unknown end, an illegal triple, or a chain of dependencies back from its end to its start, in that order, and otherwise accepted |
| Distances.LevelsAreDistances | packages/domain/src/graph.ts:187-205 | when the levels up to the bound are complete, or nothing is left to follow, the depths found are the shortest distances |
| RiskGraphs.AddToIndex | packages/domain/src/graph.ts:91-93 | indexing an edge is exact unless its id is re-used with another end |
| RiskGraphs.StoreIsCoherent | packages/domain/src/graph.ts:91-93 | storing an edge keeps both indexes coherent if and only if its id is new or joins the same two nodes |
| RiskGraphs.ReachableIsConnected | packages/domain/src/graph.ts:128-153 | what the indexes connect includes everything reachable, and nothing else while they are coherent |
| RiskGraphs.RefusalByIndexes | packages/domain/src/graph.ts:65-94 | a refusal by the indexes lets nothing through that the graph refuses, and equals it while they are coherent |
| RiskGraphs.StaleEntryRefuses | packages/domain/src/graph.ts:91-93 | with an edge id used for a to b and then for c to b, an edge from b to a is refused although nothing leads from a to b |
| RiskGraphs.SearchStep | packages/domain/src/graph.ts:142-150 | following every link from the front of the queue keeps the search sound |
| RiskGraphs.SearchComplete | packages/domain/src/graph.ts:152 | an empty queue means the indexes do not connect the target |
| RiskGraphs.EnqueueUnseen | packages/domain/src/graph.ts:145-150 | the inner loop adds exactly the unseen ends to both the seen set and the queue |
| RiskGraphs.FollowEdges | packages/domain/src/graph.ts:190-201 | the inner loop gives every unvisited end of an admissible edge the current depth and queues it |
| RiskGraphs.LevelComplete | packages/domain/src/graph.ts:187-203 | once every frontier node is expanded the next level is complete |
| RiskGraphs.RiskGraph.AddNode | packages/domain/src/graph.ts:55-59 | stores the node, keeps its index entries if it had any, and leaves the indexes as complete and as exact as they were |
| RiskGraphs.RiskGraph.Resolve | packages/domain/src/graph.ts:128-136 | lists the stored edges an index entry names, of the wanted type |
| RiskGraphs.RiskGraph.EdgesFrom | packages/domain/src/graph.ts:119-121 | lists exactly the stored edges of the wanted type that the node's entry names, which are the edges leaving it while the indexes are coherent |
| RiskGraphs.RiskGraph.EdgesTo | packages/domain/src/graph.ts:124-126 | lists exactly the edges arriving at the node, of the wanted type |
| RiskGraphs.RiskGraph.Reaches | packages/domain/src/graph.ts:139-153 | terminates, and answers true if and only if the indexes connect the nodes by edges of the type, which is reachability while they are coherent |
| RiskGraphs.RiskGraph.AddEdge | packages/domain/src/graph.ts:65-94 | refuses with the first applicable error, a cycle exactly if the indexes connect the ends, or stores the edge; says exactly when the indexes stay coherent, and never closes a cycle even with stale entries in them |
| RiskGraphs.RiskGraph.Traverse | packages/domain/src/graph.ts:160-206 | fails exactly on an unknown start, and otherwise contains exactly the nodes at the end of a walk of at most `maxDepth` admissible links from a start, the starts at depth zero included, each with the length of its shortest walk, for both directions and every filter |
| Queries.WhatCanFail | packages/domain/src/queries.ts:16-37 | returns what the entity owns and whatever that depends on within the bound, and refuses an unknown entity |
| Queries.CanFailMeaning | packages/domain/src/queries.ts:16-37 | by stored edges: the known nodes on which something the entity owns depends, the owned ones included, through at most `maxDepth` in a row |
| Queries.DependenciesOf | packages/domain/src/queries.ts:40-57 | maps exactly the other nodes on which the asset depends through at most `maxDepth` admissible stored dependencies in a row, each to the length of its shortest chain |
| Queries.DependentsOf | packages/domain/src/queries.ts:60-77 | maps exactly the other nodes that depend on the asset in that way |
| Queries.DependencyMapMeaning | packages/domain/src/queries.ts:40-77 | by stored edges: outward maps hold what the asset depends on, inward maps what depends on the asset, each at the length of a shortest chain |
| Queries.DependencyDuality | packages/domain/src/queries.ts:40-77 | b is among a's dependencies at depth d if and only if a is among b's dependents at depth d |
| Queries.DependenciesAreVerified | packages/domain/src/queries.ts:40-77 | under `verifiedOnly` dependencies and dependents are those of the graph without AI-inferred edges |
| Queries.OwnershipIsNotFiltered | packages/domain/src/queries.ts:16-37 | under `verifiedOnly` what can fail is what verified dependencies reach from every owned asset, however its ownership is known |
| Queries.InferredOwnershipCounts | packages/domain/src/queries.ts:16-37 | an asset owned through an inferred edge alone can fail under `verifiedOnly` |
| Queries.InferredExposureCounts | packages/domain/src/queries.ts:84-120 | an entity exposed through an inferred edge alone is exposed under `verifiedOnly` |
| Queries.ExposedEntities | packages/domain/src/queries.ts:84-120 | returns the entities exposed themselves or owning an exposed asset or a dependent of one |
| Queries.ExposedMeaning | packages/domain/src/queries.ts:84-120 | by stored edges: entities exposed to the risk, and owners of assets exposed to it or depending on such an asset within the bound |
| Queries.CoveringPolicies | packages/domain/src/queries.ts:148-158 | returns the policies and coverages with a COVERS edge to the risk |
| Queries.CapitalBearingRisk | packages/domain/src/queries.ts:164-189 | returns each syndicate assuming the risk with its capital and its protection |
| Queries.BearingMeaning | packages/domain/src/queries.ts:164-189 | by stored edges: syndicates that assume the risk, each with the capital nodes that support it and the nodes that protect it |
| Queries.CorrelatedEntities | packages/domain/src/queries.ts:197-225 | returns every other entity sharing a dependency, with exactly the shared ones |
| Queries.CorrelatedMeaning | packages/domain/src/queries.ts:197-225 | the other entities for which something can fail that can fail for the subject, each with all of it |
| Queries.CorrelationIsSymmetric | packages/domain/src/queries.ts:197-225 | in a legal graph correlation is symmetric, with equal shared sets, for nodes of any type |
| Simulation.RunSimulation | packages/domain/src/simulation.ts:163-263 | affected, exposed, correlated, capital, insured and uninsured all meet their declarative definitions, whatever order nodes are visited in |
| Simulation.AffectedMeaning | packages/domain/src/simulation.ts:179-182 | affected are the other nodes that depend on an asset trigger through at most eight dependencies in a row, inferred ones included |
| Simulation.ExposedByMeaning | packages/domain/src/simulation.ts:188-200 | exposed are those exposed to a risk trigger, or the owners of any other trigger and of what is affected |
| Simulation.InsuredMeaning | packages/domain/src/simulation.ts:227-251 | insured are the exposed who are exposed to a covered risk in scope, uninsured the other exposed ones |
| Simulation.CapitalMeaning | packages/domain/src/simulation.ts:238-244 | the capital result names the syndicates that assume a risk in scope, each with its own capital and protection |
| Simulation.MergedMeaning | packages/domain/src/simulation.ts:207-215 | correlated are the entities that share a possible failure with an exposed one, each with a largest shared set |
| Simulation.CoveredTriggerInsuresAll | packages/domain/src/simulation.ts:188-251 | if an asset trigger is itself exposed to a covered risk, nobody the scenario exposes is uninsured |
| Simulation.RiskTriggerIsAllOrNothing | packages/domain/src/simulation.ts:265-283 | a risk trigger insures all exposed entities or none, as something covers it or not |
| Simulation.BearingUnion | packages/domain/src/simulation.ts:238-244 | the capital result is a union over the risks, independent of their order |
| Simulation.AssessRisks | packages/domain/src/simulation.ts:238-243 | the loop over risks yields that union and exactly the entities insured against one of them |
| Simulation.MergeCorrelated | packages/domain/src/simulation.ts:207-215 | merging keeps, for each correlated entity, a largest set of shared dependencies |
| GraphServices.SameVerdict | apps/api/src/graph/graph.service.ts:130-134 | checking an edge against the organisation's own part says what a check against the whole store would say |
| GraphServices.SubgraphMeaning | apps/api/src/graph/graph.service.ts:153-169 | the organisation's part holds exactly its nodes and the edges with both ends among them, unchanged |
| GraphServices.StoredPartsAreReplayable | apps/api/src/graph/graph.service.ts:153-169 | any part of a stored graph can be loaded again edge by edge, in any order, with no refusal |
| GraphServices.GraphService.CreateNode | apps/api/src/graph/graph.service.ts:46-95 | stores the node for the caller's organisation and keeps the store sound |
| GraphServices.GraphService.LoadGraph | apps/api/src/graph/graph.service.ts:153-169 | rebuilds exactly the organisation's nodes and edges, rejecting none, with coherent indexes and no cycle of any kind |
| GraphServices.GraphService.CreateEdge | apps/api/src/graph/graph.service.ts:97-151 | refuses unknown endpoints, foreign endpoints and edges the whole store would refuse, in that order, and otherwise stores the edge and keeps the store sound |

## Left out

- Floating point beyond the range above: `NaN`, infinities and amounts whose products are not safe integers.
- Currencies: every module works in one currency; a mismatch is an error in the source before any of this applies.
- Roles, scopes and agent mandates; of the tenant checks, the owner checks of `open`, `bind`, `report`, `createEdge` and `cede` are kept, the read-access ones are not.
- Audit records, timestamps, error texts, actors and reasons, evidence references, UUID generation, and the display order of results.
- The marketplace (listings, interests, appetites): its answers are parameters, and marking a listing MATCHED on binding is not modelled.
- `concentrationBy`, `potentialLosses`, `formatMoney` and the plain money operations: they would only add easy members.
- `requireValidScenario`, `estimateLoss`, scoring, underwriting and uncertainty: placeholder formulas over floating point.
- Settlement, submissions, identity, provenance rules, jurisdiction data and the analyst: small tables, guards or record construction.
- The relational repositories, their triggers and concurrent requests: service calls are atomic steps over the in-memory repositories.
- Portals, controllers, payment and identity providers: I/O and foreign calls.
