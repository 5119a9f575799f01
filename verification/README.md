# XDE scheduling core: model and proofs

XDE downloads one file over many connections at once. Its scheduling core does no I/O: it
decides which bytes each worker fetches, cuts running workers short, credits what came back,
bounds memory, shares connections between jobs and puts chunks back in order. This project
models that core in Dafny and proves what the rest of the engine relies on, over every input,
every run and every interleaving.

The layers, bottom up:

| file | what it holds |
|---|---|
| `Basics.dfy` | optional values and saturating arithmetic |
| `Ranges.dfy`, `RangeSets.dfy` | half-open byte ranges and the normalized interval set, related to plain sets of offsets |
| `Rates.dfy` | the decayed mean and variance of a worker, the fleet's statistics and the straggler test, over the reals |
| `PlanView.dfy` | the segment plan as plain sets of bytes; every plan operation as a step on them |
| `Segments.dfy` | the plan as the program keeps it (interval vectors, slot map, backoff list); every method proved to carry out its step |
| `PlanSafety.dfy`, `PlanRuns.dfy`, `PlanClaims.dfy` | one owner for every byte, whole runs, claim outcomes, backoff, cut points, the equal first split |
| `PlanNumbers.dfy` | how long pieces are, who is stolen from and where cuts fall, in bytes and seconds |
| `PlanReplay.dfy` | any sequence of operations on the plan itself is such a run |
| `Handshake.dfy` | plan cuts, delayed or lost truncations and running fetches, interleaved step by step |
| `Budget.dfy` | the memory budget at the granularity of its atomic operations |
| `Fairness.dfy`, `Jobs.dfy` | weighted fair queueing, and the job tables that go through its steps |
| `Tallies.dfy`, `Slots.dfy`, `Leases.dfy` | slot accounting and the pump, destination leases and job termination |
| `Provenance.dfy`, `Reorder.dfy` | first-writer attribution and the reorder buffer |

`dafny verify dfyconfig.toml` checks everything.

The main results, hardest first:

1. **One owner per byte** (`PlanRuns.RunIsPartitioned`). Over every run of claims, steals, commits
   in any order, finishes, failures, retries, releases and rebalances, the completed bytes, the
   live ranges and the deferred ranges are pairwise disjoint and together are exactly the claimed
   bytes, all inside the file, in every state, if and only if every finish is safe; in-order
   commits make every finish safe. `Segments.SegmentPlan` refines those steps, and
   `PlanReplay.Replay` carries the result to any sequence of operations on the interval vectors.
2. **Truncation handshake** (`Handshake.FlagNeverBelowPlan`, `Handshake.FinishReleasesNothing`).
   However cuts, lost or late truncations and deliveries interleave, no fetch is told to stop
   before the end the plan assigns to it; a reported success has delivered the assigned range,
   credits exactly that range, all of it new, and gives nothing back. Whatever is completed was
   accepted by a sink (`Handshake.CompletedWasAccepted`). The end of a body is a success if and
   only if every byte of its wire range was accepted (`Handshake.BodyEndDecides`), and where no
   truncation is lost the flag comes to the plan's end exactly (`Handshake.FlagCatchesUp`).
3. **Memory budget** (`Budget.BudgetIsSafe`). Over all interleavings the counter is the sum of
   the live permits, stays within the limit, and no wakeup is lost; a request is granted at once
   if and only if the budget admits it (`Budget.AcquireIff`).
4. **Range set refinement** (`RangeSets.Replay`, `Ranges.Canonical`). Any sequence of edits
   yields the one normalized form of the edited byte set, and every query is exact.
5. **Rates** (`Rates.IncrementalIsExact`, `Rates.SmallFleetFlagsOnlyHalfRates`). The incremental
   mean and variance equal their definition, and the straggler test is characterised exactly
   for fleets of up to four.
6. **Fairness** (`Fairness.OriginStaysFair`). On an origin whose jobs stay runnable while they
   transfer, newcomers included, no job leads another by more than in-flight depth times the
   largest sample over the smallest weight. The controller's job tables go through runs of that
   machine (`Slots.Serve`).
7. **Slots, leases, provenance, reordering**: exact slot counts over any events, at-most-once
   termination, first-writer attribution and in-order output, how far the
   output gets (`Reorder.NextIsFirstMissing`) and exactly when a reorder buffer is doomed.

## Assumptions

- The plan is in segmented mode: the total is known, `single_stream` is off and neither
  `set_total` nor `invalidate` is called after creation.
- Worker rates, clocks, the decay factor, the set of stragglers, the plan's answer to the pump and
  the square root are inputs; the proofs hold for every value of them (the square root is exact
  where a theorem needs it to be).
- `u64::clamp` panics on an inverted interval, so a claim step exists only where the interval for the
  bytes still missing is not inverted (`PlanView.View.CanClaim`); a run that panics ends there.
  `PlanView.UsableIff` says which policies never panic on a file of a given size.
- Commits arrive in any order in the runs of `PlanRuns` and `PlanReplay`. The engine of `Handshake`
  reports them in order, if at all.
- In `Fairness.OriginStaysFair` every transferring job is runnable at every claim. A job at its own
  in-flight ceiling is not (`core/controller.rs:3091-3095`): while it waits for its pieces the others
  may run ahead of it, and the theorem does not speak of such runs.
- A fetch that gets as far as its body has passed the Content-Range check of section 14.4 of RFC 9110.

## Where the code and its documentation differ

- Piece boundaries are said to snap to `alignment` (`core/policy.rs:158`), but `snap_end` returns
  every non-empty range unchanged (`PlanSafety.SnapEndOnlyFillsEmpty`, `PlanClaims.SnapEndDoesNotSnap`).
  `PlanClaims.FreshEndAlignedIff` says when a whole piece ends on a boundary all the same.
- The overlap prefix is requested twice over: the start command carries the widened range and the
  overlap again, and the fetch widens once more. Harmless, because credit is clipped to the
  assignment: `Handshake.OverlapRequestedTwice`.
- A job is runnable only if its plan has unclaimed or due work, so through the pump a steal can
  happen only while an elapsed backoff is not yet released: `PlanRuns.StealOnlyBehindDueRetry`.
- `clamp_max_piece` may lower the cap below a minimum piece, after which a claim panics:
  `PlanView.HintKeepsUsableIff` says exactly when it does not, `PlanView.SmallHintPanics` gives a case.
- Out-of-order commits followed by a steal credit a byte the thief owns:
  `PlanRuns.OutOfOrderCommitBreaksPartition`. `PlanSafety.FinishSafeIff` is the exact condition for
  one verified finish and `PlanRuns.RunIsPartitioned` for a run.
- `RangeSet::is_complete` asks for more than that every byte of `[0, total)` is there: nothing may lie
  beyond the first hole. `Ranges.IsCompleteIff` is the exact condition,
  `Ranges.IsCompleteMissesStrayRanges` a set it rejects.
- `foreign_spans` is empty until a second source has written; `Provenance.ArtifactProvenance.ForeignSpans`
  states exactly when its answer is right.
- An oversized speculative permit eats the frontier's reserve: `Budget.OversizedPermitBlocksFrontier`;
  `Budget.ReserveIsAvailableIff` is the exact condition for the reserve to hold.
- Chunks that overlap pending ones can doom the reorder buffer, by reaching past the start of a pending
  chunk (`Reorder.OverlapStrandsPending`) or by overlapping one while they are pending themselves
  (`Reorder.PendingOverlapDooms`). `Reorder.DoomsIff` is the exact condition; what is hopeless is never
  emitted (`Reorder.HopelessForGood`), and any other buffer can be emptied (`Reorder.GapsEmpty`).
- The engine reports no wire, submit or commit progress to the plan (nothing outside `segment.rs` calls
  `on_wire_received`, `on_submitted` or `on_destination_committed`), so in it no assignment's rate
  ever warms up: nobody is a straggler, a rebalance changes nothing and a steal protects nothing of
  its victim: `Handshake.SilentEngineNeverRebalances`.
- `release_due` returns the highest released attempt "so the next StartRange can carry it"
  (`core/segment.rs:222-223`), but the controller drops it and the entry is gone before the next claim
  looks it up: every fresh claim starts over at attempt zero (`PlanNumbers.FreshAttemptIsZero`).
- Fair queueing bounds the lead over jobs that stay runnable only. A job that could not run for a
  while falls behind by more (`Fairness.UnrunnableFallsBehind`), so `Fairness.FairnessBound` carries
  the lead at the start of the contention.

## Model

| member | source | states |
|---|---|---|
| `Ranges.ContainsExact` | crates/xde/src/core/ranges.rs:170-173 | the binary search answers membership in the set of bytes, both ways |
| `Ranges.ContainsRangeExact` | crates/xde/src/core/ranges.rs:175-183 | true exactly when every byte of the range is covered, empty ranges included |
| `Ranges.FirstGapExact` | crates/xde/src/core/ranges.rs:185-204 | the gap is uncovered and maximal, everything between `from` and it is covered; none iff `[from, limit)` is covered |
| `Ranges.IsCompleteIff` | crates/xde/src/core/ranges.rs:225-231 | for every normalized set: complete iff `[0, total)` is covered and nothing lies beyond the first hole |
| `Ranges.IsCompleteExact` | crates/xde/src/core/ranges.rs:225-231 | so for a set inside `[0, total)`: complete iff its bytes are all of `[0, total)` |
| `Ranges.IsCompleteMissesStrayRanges` | crates/xde/src/core/ranges.rs:225-231 | a set that covers the whole file and is reported incomplete; `Ranges.IsCompleteIff` says when |
| `Ranges.ContiguousPrefixExact` | crates/xde/src/core/ranges.rs:233-239 | everything below the answer is covered and the byte at it is not |
| `Ranges.Canonical` | crates/xde/src/core/ranges.rs:76-81 | two normalized sets with the same bytes are the same vector, so derived equality is set equality |
| `Ranges.TotalLenIsCardinality` | crates/xde/src/core/ranges.rs:247-260 | the counter's value is the cardinality of the byte set |
| `RangeSets.InsertSplice` | crates/xde/src/core/ranges.rs:125-142 | replacing the touched neighbours by the merged range is normalized, adds exactly the range's bytes and keeps the counter right |
| `RangeSets.RemoveSplice` | crates/xde/src/core/ranges.rs:149-167 | replacing the overlapped neighbours by the leftovers is normalized and takes out exactly the range's bytes |
| `RangeSets.RangeSet.constructor` | crates/xde/src/core/ranges.rs:84-86 | the empty set |
| `RangeSets.RangeSet.Clear` | crates/xde/src/core/ranges.rs:116-119 | the empty set, counter included |
| `RangeSets.RangeSet.Insert` | crates/xde/src/core/ranges.rs:121-143 | bytes become the old bytes plus the range; vector normalized, counter exact |
| `RangeSets.RangeSet.Remove` | crates/xde/src/core/ranges.rs:145-168 | bytes become the old bytes minus the range; vector normalized, counter exact |
| `RangeSets.RangeSet.UnionWith` | crates/xde/src/core/ranges.rs:241-245 | bytes become the union |
| `RangeSets.Replay` | crates/xde/src/core/ranges.rs:121-168 | after any sequence of inserts and removes the vector is normalized, denotes the edited byte set, and the counter is its cardinality |
| `RangeSets.FromRanges` | crates/xde/src/core/ranges.rs:88-94 | normalized union of the given ranges |
| `RangeSets.ConstructionOrderIrrelevant` | crates/xde/src/core/ranges.rs:88-94 | lists with the same elements build the same vector, whatever their order and duplicates |
| `RangeSets.Gaps` | crates/xde/src/core/ranges.rs:206-223 | normalized, and exactly the uncovered bytes of `[0, limit)` |
| `RangeSets.Decode` | crates/xde/src/core/ranges.rs:275-297 | any pair list decodes to the normalized union of its valid pairs; decoding an encoded set gives that set back |
| `Rates.EwmaWithVariance.Observe` | crates/xde/src/core/ewma.rs:26-42 | the three fields move to the specified next value; a sample that is not finite changes nothing |
| `Rates.ExponentialIsConvex` | crates/xde/src/core/ewma.rs:36-40 | the exponential weights are non-negative and sum to one |
| `Rates.IncrementalIsExact` | crates/xde/src/core/ewma.rs:26-42 | after any observations mean and variance are the weighted mean and weighted variance under those weights; mean within the samples' range, variance at most a quarter of its square |
| `Rates.SamplesCount` | crates/xde/src/core/ewma.rs:30-42 | every observation is counted, up to the counter's width, so a worker is warm exactly from its third on |
| `Rates.SlowIff` | crates/xde/src/core/segment.rs:659-674 | with dispersion the test compares with z deviations below the mean, without it half the mean counts as four deviations; the share is tested either way |
| `Rates.OutlierBound` | crates/xde/src/core/segment.rs:632-635 | for any rate of a fleet of n, (rate - mean)^2 <= (n-1) * variance |
| `Rates.SmallFleetFlagsOnlyHalfRates` | crates/xde/src/core/segment.rs:659-674 | with z = 2.0 and share = 0.5 and at most four warm workers, flagged iff below half the mean |
| `Rates.FiveWorkersCanFlagMore` | crates/xde/src/core/segment.rs:659-674 | four is tight: five workers, one flagged above half the mean |
| `Rates.FastestNeverFlagged` | crates/xde/src/core/segment.rs:659-674 | in a fleet of any size the fastest warm worker is not flagged |
| `PlanView.AlignUp` | crates/xde/src/core/segment.rs:811-817 | the first multiple of the alignment at or above the value |
| `PlanView.UsableIff` | crates/xde/src/core/segment.rs:305-318 | for a file of any given size: the clamp interval is upright for every number of missing bytes iff min_piece <= max_piece, where the file outgrows the tail, and tail_min_piece <= max_piece, where max_piece fits tail and file |
| `PlanView.HintKeepsUsableIff` | crates/xde/src/core/segment.rs:252-256 | under a size hint no claim on such a file panics iff the hint is zero, or at least min_piece where the file outgrows the tail, and at least tail_min_piece where it fits tail and file |
| `PlanView.SmallHintPanics` | crates/xde/src/core/policy.rs:171-183 | the default policy with a 4 KiB hint inverts the interval whenever more than the tail is missing |
| `PlanView.UnclaimedIsNotDeferred` | crates/xde/src/core/segment.rs:201-220 | while deferred work stays claimed no unclaimed gap is in backoff |
| `PlanSafety.InvPartitions` | crates/xde/src/core/segment.rs:785-808 | the invariant gives every claimed byte exactly one owner and no unclaimed byte any |
| `PlanSafety.SnapEndOnlyFillsEmpty` | crates/xde/src/core/segment.rs:819-825 | for every alignment a non-empty range keeps its end, an empty one becomes one byte |
| `PlanSafety.TakenRangeFits` | crates/xde/src/core/segment.rs:363-378 | the piece carved from a gap starts at it, is non-empty and stays inside it |
| `PlanSafety.StealCutFits` | crates/xde/src/core/segment.rs:448-480 | the cut lies between protected frontier + min_piece and range end - min_piece, and beyond the cursor |
| `PlanSafety.ClaimInv` | crates/xde/src/core/segment.rs:331-425 | a claim of any outcome keeps the partition invariant |
| `PlanSafety.HandOver` | crates/xde/src/core/segment.rs:406-421 | a steal moves the tail from victim to thief without changing what is claimed |
| `PlanSafety.VerifyFinishIs` | crates/xde/src/core/segment.rs:545-581 | verify-then-finish credits exactly what was verified of the range or committed, wherever, and un-claims exactly the rest of the range |
| `PlanSafety.FinishSafeIff` | crates/xde/src/core/controller.rs:1521-1522 | the pair keeps the partition iff no byte committed outside the worker's current range is owned by another, deferred or outside the file |
| `PlanSafety.VerifyFinishInv` | crates/xde/src/core/segment.rs:545-581 | a safe pair keeps the invariant |
| `PlanSafety.OrderedIsSafe` | crates/xde/src/core/segment.rs:518-541 | with in-order commits nothing is stray, so every finish is safe |
| `PlanSafety.AbandonInv` | crates/xde/src/core/segment.rs:589-601 | abandon un-claims exactly the range and keeps the invariant |
| `PlanSafety.AbandonDeferInv` | crates/xde/src/core/controller.rs:3487-3492 | abandon-then-defer moves the range from the worker to the backoff list; the claimed set is unchanged |
| `PlanSafety.ReleaseInv` | crates/xde/src/core/segment.rs:224-239 | releasing due work keeps the invariant |
| `PlanSafety.RebalanceInv` | crates/xde/src/core/segment.rs:697-760 | a rebalance of any set of stragglers keeps the invariant, the workers, the completed bytes and the backoff list |
| `PlanSafety.CommitInv` | crates/xde/src/core/segment.rs:518-541 | a commit in any order keeps the invariant |
| `PlanRuns.NextInv` | crates/xde/src/core/segment.rs:208-760 | every step but an unsafe finish keeps the invariant, commits in any order and a lowered cap included |
| `PlanRuns.RunIsPartitioned` | crates/xde/src/core/segment.rs:208-760 | in every state of a run completed, live and deferred bytes are pairwise disjoint and are exactly the claimed bytes, inside the file, iff every finish is safe |
| `PlanRuns.PartitionedUntilUnsafe` | crates/xde/src/core/segment.rs:565-581 | any run is partitioned up to its first unsafe finish, and not right after it |
| `PlanRuns.InOrderRunIsPartitioned` | crates/xde/src/core/segment.rs:516-541 | a run whose commits arrive in order is partitioned throughout |
| `PlanRuns.StepCredit` | crates/xde/src/core/segment.rs:543-581 | only a finish credits, and with in-order commits only bytes that were not completed before |
| `PlanRuns.CreditIsConserved` | crates/xde/src/core/segment.rs:543-581 | over any run with in-order commits the credits of the finishes add up to the growth of the completed set, which never shrinks |
| `PlanRuns.ClaimOutcomeExact` | crates/xde/src/core/segment.rs:331-425 | Complete iff all completed; Fresh iff some byte is unclaimed, and then from the first one; otherwise every byte is completed, live or deferred |
| `PlanRuns.AdmitsWorkerIff` | crates/xde/src/core/segment.rs:179-199 | true iff the file is incomplete and some byte is unclaimed or some backoff has elapsed |
| `PlanRuns.StealOnlyBehindDueRetry` | crates/xde/src/core/controller.rs:3085-3090 | after `admits_worker` a claim is fresh unless everything is claimed and an elapsed backoff is unreleased; it is never Complete |
| `PlanRuns.BackoffHeld` | crates/xde/src/core/segment.rs:207-239 | until the first release at or after its deadline deferred work stays claimed and ownerless, over any run |
| `PlanRuns.ClaimRespectsBackoff` | crates/xde/src/core/segment.rs:284-303 | with a monotone clock nothing live after a claim at `now` touches work deferred beyond `now` |
| `PlanRuns.ReleaseFreesExactlyTheDue` | crates/xde/src/core/segment.rs:222-239 | that first release un-claims exactly the due bytes and no completed or live one |
| `PlanRuns.RetryHeldUntil` | crates/xde/src/core/controller.rs:3487-3492 | the range of a failed worker stays claimed and ownerless until the first release at or after its deadline, which makes it claimable again |
| `PlanRuns.StolenFromOnce` | crates/xde/src/core/segment.rs:432-436 | over any run a worker that was stolen from is not stolen from again while it lives |
| `PlanRuns.OutOfOrderCommitBreaksPartition` | crates/xde/src/core/segment.rs:406-421 | a run of the plan's own steps from a fresh plan: claim, a commit ahead of the cursor, a steal, then verify and finish leave one byte with two owners |
| `PlanClaims.StealBalancesFinishTimes` | crates/xde/src/core/segment.rs:467-478 | when no clamp bites, the finish times of incumbent and thief differ by at most max(1, alignment) * (1/v1 + 1/v2) |
| `PlanClaims.FreshEndAlignedIff` | crates/xde/src/core/segment.rs:363-378 | a claim of a whole piece ends on an alignment boundary iff its gap starts on one, or, where the piece does not fit, ends on one |
| `PlanClaims.EqualFirstSplit` | crates/xde/src/core/segment.rs:359-400 | n first claims for n peers cover the whole file, each with the rounded-down or rounded-up share |
| `PlanNumbers.FreshPieceLength` | crates/xde/src/core/segment.rs:305-318 | a whole piece is the estimate times the duration, kept between the minimum and maximum that apply to what is missing, rounded up by less than the alignment and at least a byte; only the end of the gap makes it shorter |
| `PlanNumbers.FreshShareLength` | crates/xde/src/core/segment.rs:363-377 | while peers are expected a claim takes the smaller of a piece and its share of the unclaimed bytes, never less than the minimum piece |
| `PlanNumbers.FreshStartsBlank` | crates/xde/src/core/segment.rs:384-400 | a fresh assignment starts now, cold and uncut; its overlap is all that is wanted iff that prefix is all claimed, and nothing otherwise |
| `PlanNumbers.PendingAttemptIs` | crates/xde/src/core/segment.rs:241-248 | the highest attempt among the deferred ranges the range meets |
| `PlanNumbers.FreshAttemptIsZero` | crates/xde/src/core/segment.rs:394-398 | in a reachable plan no fresh range meets a deferred one, so every fresh claim starts over at attempt zero |
| `PlanNumbers.CommitMeasures` | crates/xde/src/core/segment.rs:528-540 | the worker's clock moves only with its cursor, its rate only after more than 20 ms, and what is observed is the cursor's advance over that time |
| `PlanNumbers.VictimFinishesLast` | crates/xde/src/core/segment.rs:432-446 | the victim was never cut, is past its grace and finishes last, to the microsecond, by its own rate once warm and the newcomer's estimate before |
| `PlanNumbers.WorthCuttingIff` | crates/xde/src/core/segment.rs:448-480 | a worker short of its first spare piece is cut iff two minimum pieces of it are left |
| `PlanNumbers.CutNear` | crates/xde/src/core/segment.rs:467-478 | the incumbent keeps its speed-weighted share, a minimum piece at least on both sides, rounded up by less than the alignment |
| `PlanNumbers.StealOutcome` | crates/xde/src/core/segment.rs:402-425 | a steal cuts and marks a ripe worker and starts its tail blank, never for a solo claim; nothing is stolen only if nobody is ripe or a last finisher is not worth cutting |
| `PlanNumbers.RebalanceCutIs` | crates/xde/src/core/segment.rs:713-728 | a straggler keeps what it moves in a piece's duration, a minimum piece at least, rounded up by less than the alignment, and is cut only if it is warm and has more than twice that left |
| `Segments.SegmentPlan.constructor` | crates/xde/src/core/segment.rs:116-135 | claimed starts as completed; no assignments, no backoff |
| `Segments.SegmentPlan.ClampMaxPiece` | crates/xde/src/core/segment.rs:252-256 | the cap becomes the smaller of cap and hint and nothing else moves; zero is ignored |
| `Segments.SegmentPlan.IsComplete` | crates/xde/src/core/segment.rs:272-277 | true iff every byte of the file is completed |
| `Segments.SegmentPlan.AdmitsWorker` | crates/xde/src/core/segment.rs:179-199 | true iff incomplete and the first gap of the byte set is not in backoff or some backoff has elapsed |
| `Segments.SegmentPlan.Defer` | crates/xde/src/core/segment.rs:208-220 | claims the range and appends it to the backoff list; empty ranges change nothing |
| `Segments.SegmentPlan.ReleaseDue` | crates/xde/src/core/segment.rs:224-239 | un-claims exactly the due ranges, keeps the others in order, and returns the highest attempt among the due, zero without any |
| `Segments.SegmentPlan.NextClaimableGap` | crates/xde/src/core/segment.rs:284-303 | the skipping search ends and returns a maximal unclaimed gap outside backoff, the first one while deferred work is claimed; in any case it passes over no unclaimed byte but behind a range in backoff |
| `Segments.SegmentPlan.PickVictim` | crates/xde/src/core/segment.rs:432-446 | an assignment with the largest finish time among those that may be cut, or none exists |
| `Segments.SegmentPlan.PlanSteal` | crates/xde/src/core/segment.rs:431-481 | such a victim with the specified cut, or nothing is worth stealing |
| `Segments.SegmentPlan.PrefixOverlap` | crates/xde/src/core/segment.rs:384-393 | the overlap is granted iff all of the wanted prefix is claimed as a set of bytes |
| `Segments.SegmentPlan.ClaimGap` | crates/xde/src/core/segment.rs:359-400 | carries out the fresh step on the byte sets, whose lengths `PlanNumbers` states in numbers |
| `Segments.SegmentPlan.ClaimWith` | crates/xde/src/core/segment.rs:331-425 | carries out the claim step on the byte sets, with the outcome it returns |
| `Segments.SegmentPlan.StealTail` | crates/xde/src/core/segment.rs:406-421 | shortens the victim and gives its tail to a new assignment |
| `Segments.SegmentPlan.PushAssignment` | crates/xde/src/core/segment.rs:483-501 | a new id, a blank assignment, its bytes claimed |
| `Segments.SegmentPlan.OnWireReceived` | crates/xde/src/core/segment.rs:504-508 | only that worker's wire counter moves |
| `Segments.SegmentPlan.OnSubmitted` | crates/xde/src/core/segment.rs:510-514 | only that worker's submitted counter moves |
| `Segments.SegmentPlan.OnDestinationCommitted` | crates/xde/src/core/segment.rs:518-541 | the acknowledged bytes clipped to the range join the committed set; the rate is updated over gaps longer than 20 ms of cursor progress |
| `Segments.SegmentPlan.OnResponseVerified` | crates/xde/src/core/segment.rs:545-559 | exactly the verified bytes inside the worker's current range become completed |
| `Segments.SegmentPlan.ReleaseUncompleted` | crates/xde/src/core/segment.rs:571-579 | the gap loop un-claims exactly the uncompleted bytes of the range |
| `Segments.SegmentPlan.FinishVerified` | crates/xde/src/core/segment.rs:565-581 | promotes what was committed, un-claims what is left, removes and returns the worker |
| `Segments.SegmentPlan.Abandon` | crates/xde/src/core/segment.rs:589-601 | removes the worker and un-claims its uncompleted bytes |
| `Segments.SegmentPlan.FleetRates` | crates/xde/src/core/segment.rs:622-628 | the rates of exactly the warm workers, each once |
| `Segments.StatsOf` | crates/xde/src/core/segment.rs:632-635 | the two-pass formulas give the mean and the population deviation |
| `Segments.SegmentPlan.Stragglers` | crates/xde/src/core/segment.rs:641-677 | returns exactly the workers the outlier test flags; nobody below two workers or without a warm one |
| `Segments.SmallPlanStragglers` | crates/xde/src/core/segment.rs:641-677 | in a plan with at most four warm workers and the default thresholds: flagged iff past its grace, enough left and below half the mean |
| `Segments.SegmentPlan.RebalanceStragglers` | crates/xde/src/core/segment.rs:697-760 | carries out the rebalance step for flagged workers only and returns exactly the cuts made |
| `Segments.SegmentPlan.CutStragglers` | crates/xde/src/core/segment.rs:706-759 | the same for any list of stragglers |
| `Segments.SegmentPlan.ReleaseTail` | crates/xde/src/core/segment.rs:734-756 | the walk over completed ranges un-claims exactly the uncompleted bytes of the cut tail |
| `PlanReplay.Operate` | crates/xde/src/core/controller.rs:1521-1522 | each operation on the plan is the event of that name, taken on its byte sets, with verify-then-finish and abandon-then-defer paired as the controller pairs them |
| `PlanReplay.Replay` | crates/xde/src/core/segment.rs:785-808 | any sequence of operations, up to a claim that panics, is a run that ends with the normalized vectors; it is partitioned throughout iff its finishes are safe, and if its commits come in order |
| `PlanReplay.CutsAreReported` | crates/xde/src/core/segment.rs:689-760 | whoever a rebalance shortens has its final end among the cuts handed to the controller, and whoever is among them ends up shorter |
| `Handshake.DeliverRangeBytes` | crates/xde/src/http/fetch.rs:123-176 | the delivered chunks tile the consumed bytes, none beyond the flag it was sized against; counters exact; it stops early only at the flag, marked truncated iff the flag lies before the wire's end, or at the first chunk memory or sink refuses; a sink without a flag refuses a frame iff it is larger than what is left |
| `Handshake.DeliverBySteps` | crates/xde/src/http/fetch.rs:138-175 | one call is a sequence of the engine's size and accept steps, each from where the last one stopped, and then its stop at the flag if the frame is cut short |
| `Handshake.MoveSafe` | crates/xde/src/shard.rs:663-685 | every step of plan, command queue, flag or fetch keeps the handshake invariant |
| `Handshake.FlagNeverBelowPlan` | crates/xde/src/shard.rs:951-960 | in every reachable state the end flag of a running fetch is at or above the plan's current end |
| `Handshake.FinishReleasesNothing` | crates/xde/src/core/segment.rs:545-581 | a reported success has delivered the plan's whole current range: exactly that range is credited, all of it new, nothing is un-claimed |
| `Handshake.BodyEndDecides` | crates/xde/src/http/fetch.rs:327-345 | over any engine run the end of a body reports the whole request iff every byte of its wire range was accepted for it, and fails otherwise |
| `Handshake.FlagStopDecides` | crates/xde/src/http/fetch.rs:140-147 | before that a fetch stops iff the flag lies before the wire's end and all up to it was accepted, reporting what it has, and otherwise sizes its next chunk below the flag |
| `Handshake.CompleteFetchCompletes` | crates/xde/src/shard.rs:674-685 | handling such a success completes the worker's whole range |
| `Handshake.FlagCatchesUp` | crates/xde/src/shard.rs:951-960 | where no truncation is lost, a running fetch that has received its commands has the flag exactly at the plan's end |
| `Handshake.StartComesFirst` | crates/xde/src/shard.rs:660-672 | a task that has not started is started by its next command, at the start of its wire range |
| `Handshake.QuarantineStops` | crates/xde/src/core/controller.rs:3719-3734 | a quarantined worker leaves the plan and the last end its fetch is told is where it was |
| `Handshake.OneFetchCompletes` | crates/xde/src/core/controller.rs:1521-1526 | a run from a fresh plan to a complete file |
| `Handshake.CompletedWasAccepted` | crates/xde/src/http/fetch.rs:162-173 | over any engine run every byte completed since the start was accepted by a sink |
| `Handshake.EngineIsPartitioned` | crates/xde/src/core/segment.rs:406-421 | the combined system keeps one owner per byte at all times |
| `Handshake.SilentEngineNeverRebalances` | crates/xde/src/core/segment.rs:503-541 | in every engine run without progress reports any measured fleet is empty, every rebalance changes nothing and the protected frontier of every worker is the start of its range |
| `Budget.FreshInv` | crates/xde/src/storage/transfer.rs:41-49 | a new budget with a clamped reserve satisfies the invariant |
| `Budget.StepInv` | crates/xde/src/storage/transfer.rs:94-138 | every atomic step keeps it |
| `Budget.BudgetIsSafe` | crates/xde/src/storage/transfer.rs:61-138 | over all interleavings: used is the sum of live permits and at most the limit, permits live exactly as long as a handle, no lost wakeup |
| `Budget.LoadDecidesIff` | crates/xde/src/storage/transfer.rs:96-121 | in every reachable state load and re-check go by the same test: within the limit for the frontier, within the limit less the reserve for speculation, an empty budget for a larger speculative request |
| `Budget.AcquireIff` | crates/xde/src/storage/transfer.rs:61-125 | an undisturbed acquisition is refused iff it is larger than the budget, yields a permit of its size iff the budget admits it, and sleeps otherwise |
| `Budget.SleeperGetsIn` | crates/xde/src/storage/transfer.rs:117-122 | a sleeper the budget admits, with no notify outstanding, has been notified and undisturbed wakes to its permit |
| `Budget.NotifiesEnd` | crates/xde/src/storage/transfer.rs:133-138 | the outstanding notifies, once done, leave none and change no permit |
| `Budget.SharedOnce` | crates/xde/src/storage/transfer.rs:145-184 | dropping one of two handles of a permit changes nothing but the handles; dropping the last gives its bytes back and owes a notify |
| `Budget.NobodySleepsOnAnEmptyBudget` | crates/xde/src/storage/transfer.rs:117-137 | once every permit is gone and every notify delivered, every parked waiter has been notified |
| `Budget.ReserveIsAvailableIff` | crates/xde/src/storage/transfer.rs:73-87 | over all interleavings, while no frontier permit is out: a frontier request of the whole reserve fits iff there is no reserve or no speculative permit larger than the non-reserve area |
| `Budget.OversizedPermitBlocksFrontier` | crates/xde/src/storage/transfer.rs:79-86 | an upgraded speculative permit leaves no room for a one-byte frontier request |
| `Budget.ShareInv` | crates/xde/src/storage/transfer.rs:145-184 | clones and split halves share one permit, which counts once |
| `Provenance.AttributedIsFirstWriter` | crates/xde/src/core/provenance.rs:47-48 | the attribution of a history is the earliest write covering each byte, and nothing else |
| `Provenance.FindHoles` | crates/xde/src/core/provenance.rs:72-91 | disjoint non-empty holes that are exactly the unowned bytes of the range |
| `Provenance.Collapse` | crates/xde/src/core/provenance.rs:103-114 | joins touching spans of one source without changing any attribution |
| `Provenance.ArtifactProvenance.Record` | crates/xde/src/core/provenance.rs:49-95 | spans stay sorted, disjoint and collapsed and denote the first writer of every byte, on the fast path too |
| `Provenance.ArtifactProvenance.Attribute` | crates/xde/src/core/provenance.rs:58-94 | adds exactly the unowned bytes to the source |
| `Provenance.ArtifactProvenance.InsertSpan` | crates/xde/src/core/provenance.rs:97-115 | adds exactly the span and leaves the list sorted and collapsed |
| `Provenance.ForeignIn` | crates/xde/src/core/provenance.rs:32-44 | exactly the bytes of the query owned by another source, early exit included |
| `Provenance.ArtifactProvenance.ForeignSpans` | crates/xde/src/core/provenance.rs:28-45 | the answer is exact iff two sources have written, nothing was written, the asker is the only writer, or the query is untouched |
| `Provenance.SingleWriter` | crates/xde/src/core/provenance.rs:29-31 | with one writer, when the empty answer is right |
| `Reorder.SplitKeepsContent` | crates/xde/src/storage/transfer.rs:249-270 | trimming and splitting keep every byte at its absolute offset, and the halves make up the chunk |
| `Reorder.OutputIsFilePrefix` | crates/xde/src/storage/reorder.rs:51-91 | for any arrivals of one file's chunks, overlapping and repeated, the output is the file up to the next offset |
| `Reorder.NextIsFirstMissing` | crates/xde/src/storage/reorder.rs:51-84 | for any arrivals, overlapping and repeated: as long as nothing is hopeless the next offset is the first one from the start that no arrived chunk covers, and everything pending lies beyond it |
| `Reorder.PermutationCompletes` | crates/xde/src/storage/reorder.rs:51-91 | every permutation of a tiling of `[0, N)` ends at N with the whole file out and nothing pending |
| `Reorder.AcceptGrowth` | crates/xde/src/storage/reorder.rs:62-82 | buffered bytes grow by at most the chunk, and only for a chunk beyond the frontier |
| `Reorder.DoomsIff` | crates/xde/src/storage/reorder.rs:51-84 | a chunk dooms a buffer iff it starts at or behind the frontier and reaches past a pending start, or becomes pending and overlaps a pending chunk |
| `Reorder.HopelessForGood` | crates/xde/src/storage/reorder.rs:74-82 | a chunk the frontier has passed, or that a pending chunk before it will carry the frontier past, stays pending whatever arrives |
| `Reorder.GapsEmpty` | crates/xde/src/storage/reorder.rs:74-82 | a buffer without such a chunk is emptied by the file bytes between its pending chunks |
| `Reorder.ApartNeverDooms` | crates/xde/src/storage/reorder.rs:51-84 | chunks that do not overlap never doom a buffer, in any order |
| `Reorder.OverlapStrandsPending` | crates/xde/src/storage/reorder.rs:75-78 | a run of three chunks that strands two |
| `Reorder.PendingOverlapDooms` | crates/xde/src/storage/reorder.rs:65-72 | two pending chunks that overlap doom the buffer before the frontier has moved |
| `Reorder.SequentialAdapter.Accept` | crates/xde/src/storage/reorder.rs:51-84 | carries out the specified acceptance; refuses exactly a chunk beyond the frontier at a pending offset; the counter is the pending total |
| `Reorder.SequentialAdapter.Drain` | crates/xde/src/storage/reorder.rs:74-82 | the loop pushes everything that became contiguous |
| `Reorder.SequentialAdapter.WriteChunk` | crates/xde/src/storage/reorder.rs:146-163 | gated by the room check the buffer never exceeds its bound; written iff the chunk advances the frontier or fits; an error iff it is written on top of a pending offset |
| `Fairness.PickLeast` | crates/xde/src/core/controller.rs:3103-3119 | the runnable job of least virtual service, ties to the smaller id; none iff nothing is runnable |
| `Fairness.LeastService` | crates/xde/src/core/controller.rs:648-664 | the fold gives the service of the least served transferring peer, zero without one |
| `Fairness.AdmittedLevel` | crates/xde/src/core/controller.rs:641-665 | a newcomer is level with the least served peer and not ahead of any, so every lead over it is the lead over that peer |
| `Fairness.OriginStaysFair` | crates/xde/src/core/controller.rs:1461-1466 | over any run of admissions, starts, stops, claims, verifications and failures in which every transferring job is runnable at every claim, none at its own in-flight ceiling, and starts within the field, no job leads another by more than depth * largest sample / smallest weight |
| `Fairness.RunsAreFair` | crates/xde/src/core/controller.rs:3099-3120 | the same, said of every origin of a run with many |
| `Fairness.NewcomerInField` | crates/xde/src/core/controller.rs:641-665 | a job that starts as it is admitted does start within the field |
| `Fairness.FairnessFromAdmission` | crates/xde/src/core/controller.rs:3099-3120 | a lead that a job does not exceed over the peers at an admission it never exceeds over the newcomer |
| `Fairness.FairnessBound` | crates/xde/src/core/controller.rs:1461-1466 | while both stay runnable, i leads j by at most in-flight depth times the dearest piece, or by its lead at the start if larger |
| `Fairness.FairnessBySamples` | crates/xde/src/core/controller.rs:3099-3120 | started level or behind, i leads j by at most depth * largest sample / smallest weight |
| `Fairness.UnrunnableFallsBehind` | crates/xde/src/core/controller.rs:3105-3107 | a run in which a job that is not runnable falls behind by more than that |
| `Fairness.CostOfPieces` | crates/xde/src/core/controller.rs:1464-1465 | the dearest piece costs at most the largest sample over the smallest weight |
| `Jobs.JobTable.Admit` | crates/xde/src/core/controller.rs:641-665 | a new job is put level with the least served transferring peer of its origin: an admission step of the queueing machine |
| `Jobs.JobTable.Remove` | crates/xde/src/core/controller.rs:3900-3936 | the job leaves all tables; its outstanding assignments are nobody's until they report |
| `Jobs.JobTable.Claim` | crates/xde/src/core/controller.rs:3211-3255 | the least served of the runnable jobs gets the assignment: a claim step of the machine |
| `Jobs.JobTable.Return` | crates/xde/src/core/controller.rs:1582-1583 | one in flight less for a job that is still there, nothing charged |
| `Jobs.JobTable.Charge` | crates/xde/src/core/controller.rs:1461-1466 | a verified assignment is a charge step of the machine for a job that is still there |
| `Jobs.ChargeIs` | crates/xde/src/core/controller.rs:1464-1465 | weight times what the job's service grew by is the bytes verified, and nobody else's service moves |
| `Slots.Controller.constructor` | crates/xde/src/core/controller.rs:605-611 | the ceiling is at least one, nothing is outstanding |
| `Slots.Controller.PickWfqJob` | crates/xde/src/core/controller.rs:3099-3120 | finds a job iff below the ceiling and one is runnable, and then the least served |
| `Slots.Controller.ClaimOne` | crates/xde/src/core/controller.rs:3211-3276 | starts at most one assignment on the connection, for the least served runnable job, counts it exactly, never passes the ceiling nor one request per HTTP/1.1 connection |
| `Slots.Controller.BestConnection` | crates/xde/src/core/controller.rs:3133-3148 | a least loaded connection with a free stream (one on HTTP/1.1, the origin's target on the others), or none has one |
| `Slots.Controller.Pump` | crates/xde/src/core/controller.rs:3122-3154 | terminates, keeps every count, starts only on the given connections, each start a claim for the least served job that turn sees, and stops only at the ceiling, without a free stream or without claimable work |
| `Slots.Controller.ReleaseSlot` | crates/xde/src/core/controller.rs:3278-3285 | both counters drop by exactly one: the saturating subtractions never clip |
| `Slots.Controller.AssignmentVerified` | crates/xde/src/core/controller.rs:1459-1517 | slot returned once; weight times what a live job's service grows by is the bytes verified while the connection is known, zero otherwise, and nobody else's moves; a spent HTTP/1.1 or drained retired connection closed, and only then |
| `Slots.Controller.AssignmentFailed` | crates/xde/src/core/controller.rs:1582-1589 | slot returned once, nobody charged, a poisoned connection dropped |
| `Slots.Controller.ConnectionReady` | crates/xde/src/core/controller.rs:783-792 | the connection becomes ready with the negotiated protocol; the counts stay exact, and one-at-a-time survives iff the report does not turn a connection with several assignments into HTTP/1.1 |
| `Slots.Controller.DropConnection` | crates/xde/src/core/controller.rs:2141-2145 | connection and its counter go together; outstanding assignments keep counting engine-wide |
| `Slots.Controller.Http1CarriesOne` | crates/xde/src/core/controller.rs:3192-3207 | in every valid state no HTTP/1.1 connection has two assignments outstanding |
| `Slots.Serve` | crates/xde/src/core/controller.rs:3099-3285 | over any events the engine count is exactly what is outstanding and within the ceiling, every connection's count is exact, an HTTP/1.1 connection carries one assignment at most, and the job tables go through a run of the fair queueing machine, fair on every origin that is kept busy |
| `Slots.OnePieceStarts` | crates/xde/src/core/controller.rs:3122-3154 | an idle engine with a transferring job and a ready connection starts a piece |
| `Leases.World.AdmitJob` | crates/xde/src/core/world.rs:450-544 | Busy iff a live job targets that key; NoSource iff free and without sources; otherwise a new job leases it and no other lease moves |
| `Leases.World.FindDestination` | crates/xde/src/core/world.rs:455-474 | the destination the index names, registered if new |
| `Leases.World.Lease` | crates/xde/src/core/world.rs:504-541 | a new job and its lease, nothing else |
| `Leases.World.FinishJob` | crates/xde/src/core/controller.rs:3900-3936 | one terminal action for a live job, none otherwise; its lease is free from then on |
| `Leases.World.TryCompleteDrain` | crates/xde/src/core/controller.rs:3857-3870 | ends a draining job with its pending outcome iff nothing is in flight |
| `Leases.World.JobCancelled` | crates/xde/src/core/controller.rs:681-700 | ends at once without work in flight, otherwise drains as cancelled |
| `Leases.World.BeginFail` | crates/xde/src/core/controller.rs:3845-3855 | a job already draining keeps its outcome; others end at once or drain as failed |
| `Leases.Serve` | crates/xde/src/core/controller.rs:3900-3936 | over any sequence of admissions, finishes, cancels, failures and drains: a destination is leased by j iff j is live and targets it, no two live jobs share one, no job ends twice, and an ended job is not live and holds no lease |

Functions without a contract of their own (`PlanView.StealCut`, `PlanView.TakeLen`,
`PlanView.FinishView`, `Reorder.Accepted`, `Budget.Apply` and the like) are the specifications the
rows above are stated with.

## Left out

- Single-stream and unknown-length plans, `set_total`, `invalidate` and the `u64::MAX` end marker: segmented mode only.
- `u64` overflow: byte offsets and counters are unbounded naturals; no wrap-around or saturation at the top of the range is modelled.
- Floating point: rates, service and statistics are reals, so rounding and infinities are not captured; `exp` is any factor in `[1e-4, 1]` and `sqrt` a parameter.
- Slot map details: ids are fresh naturals, iteration order is arbitrary and a tie between two victims may go either way.
- The `connection` field of an assignment: which connection a truncation is sent to is the choice of sending or losing it.
- Handshake.MoveSafe: commits are reported in order in the engine model; the engine itself never reports any.
- Slots.Serve: events are handled only where the engine would see them, so a ready report that turns a busy multiplexed connection into HTTP/1.1 is skipped; `Slots.Controller.ConnectionReady` says what it would break.
- Slots: each started assignment yields one terminal observation; the extra per-connection decrement of a quarantined source and dispatch failures that carry no assignment are outside the model.
- Retry budgets: the attempt number a release returns is dropped by the controller, and every fresh claim starts over at zero (`PlanNumbers.FreshAttemptIsZero`), so no bound on attempts follows from the code.
- Reorder.SequentialAdapter.PushNow: a sink that refuses a chunk is not modelled; every push succeeds.
- Draining: a cancelled job whose last response completes the plan may still commit, so "a cancelled job never completes" is not claimed.
- Adaptive topology, endpoint ranking, probing, resolution, redirects and mirrors' selection: heuristics.
- Sockets, TLS, QUIC, HTTP framing, files, hashing, the journal's byte encoding, telemetry, snapshots and the capacity permits of `storage/capacity.rs`.
