# Verified models of koalisi's algorithms and protocols

This project models six parts of koalisi in Dafny and proves properties of the models: the search
for coalition structures, the deterministic draws behind it, the membership drivers with their
trace and its decoders, the group and persistent policies' bookkeeping, the runtime's supervision,
drain and ingestion protocols, and the workload allocator and metrics splitter. `dafny verify
dfyconfig.toml` checks all of it.

## What is modelled

- **Draws** (`Words`, `Draws`): the SplitMix64 stream on 64-bit words, Fisher-Yates, and the
  rejection sampler, whose termination follows from the stream's full period and the bijectivity of
  its mixer.
- **Coalition structures** (`IntegerPartitions`, `PartitionBounds`, `SetPartitions`, `Search`,
  `SwarmHistory`, `Values`, `Averages`): the partition enumerator and counter, the bounds,
  canonical assignments, the seeding and the swarm loop, whole searches read off their evaluations,
  and what the average bound says of a pool. `population.rs` carries its own copy of the stream and
  of the shuffle; both are the ones of `Draws`.
- **Membership runs** (`Workflow`, `Questions`, `Outcomes`, `Scores`, `Trace`, `Replays`,
  `RefPrune`): a policy is one function of its state per hook, so a result about every `Policy<S>`
  holds for every stateful policy. `Workflow` has the passes, `Questions` what a policy is asked
  and told, `Outcomes` both runners with their signals, `Scores` what their scores count, `Trace`
  the decoder and its round trips, `Replays` the replay, `RefPrune` the greedy reference policy.
- **Policies** (`Routing`, `GroupPolicy`, `Ledger`, `Mirror`, `PersistentArm`): the routing matrix
  and its threshold, the group ledger as a state machine and read off its calls, the replay's
  mirror of it, and the persistent arm's cap, lockout and replay window. The inference engine is an
  oracle: what a query, a read or an update comes to is a parameter of each call, so the results
  hold for every engine.
- **Runtime** (`Supervision`, `CancelDrain`, `Ingest`): each protocol as the steps its task, its
  environment and the other threads take, in any interleaving.
- **Allocator and splitter** (`Dcvc`, `SplitSeries`).

`Agents`, `Sorting`, `Sums` and `Wrappers` hold what several of them share.

Each operation that changes state in place is a method or a class whose contract ties the new state
to a function of the old one; the properties are lemmas about these functions.

## Conventions

- `f64` values are exact reals. Value buckets are not empty, as the maximum and the mean of an
  empty one are `-inf` and NaN. A read that the source finds non-finite is a case of its own.
- Words that wrap are naturals below 2^64 with the wrap written out: the stream, the partition
  counts, and the lockout's sum. The counts and the sum wrap in a release build; a debug build
  panics where they would.
- A capability mask is the set of its bit positions below 32: bitwise or, bitwise and and the
  population count are union, intersection and cardinality.
- Clock readings, cancellations, panics, sends and other threads' calls are parameters or events.
- A policy's shared state is behind one mutex; calls are serialised.
- The per-bit signal and the performance flags are parameters of a run of the drivers, so results
  about runs hold for all; `Outcomes` has the ones the two runners use.
- A routed row's confidence weight, the exponential of its negated entropy, enters as any function
  that is symmetric in the two actions, lies in [1/2, 1], is one for a certain output, and whose
  pull away from one half grows with certainty (`Routing.Confidence`).

## Where the code and its documentation differ

- `aipa.rs` calls the average bound a lower bound. For the values of a pool it is the mean over the
  labelled structures of the shape (`MeanIsAverageBound`), so it bounds the best structure of the
  shape from below (`SomeStructureReachesAverage`), and all of them exactly when they are all worth
  the same (`AverageIsLowerBoundExactly`, `AverageIsNoLowerBound`).
- `source.rs` says that a returned `Ok` means that every forwarded sample was ingested and its
  update published. A monitor acknowledges a sample of another key after dropping it, so this holds
  exactly when the router sends every sample to a monitor bound to its key
  (`ForwardedIsPublishedExactly`).
- `monitor.rs` speaks of a ring of the given capacity. A ring of capacity zero is never full and
  keeps everything (`BoundedExactlyIfPositive`).
- The documented rejoin lockout covers the next k tasks; the code adds on 64-bit words, and a
  lockout whose end wraps bars nobody (`JoinActsExactly`, `LockoutWraps`).
- `group_policy.rs` says that a skipped or doubled observation shows up in the gate. One such slip
  always does; slips that cancel do not (`OneSlipFailsTheGate`, `CancellingSlipsPass`).
- `k7_2.rs` presents its leave-path counts as a mirror of the policy's. The policy stops counting
  at a query it cannot build, and counts nothing for a demand it refused; the two agree exactly
  without such reads (`MirrorAgrees`).
- The battery passes no steps to `begin_task`, so the reference policy prunes every coalition to
  nobody under it; its minimality is a result about the workflow driver, which passes them.

## Model

| member | source | states |
|---|---|---|
| Words.XorShiftInverse | src/harness/rng.rs:24-26 | the xor-shift of a 64-bit word by any positive amount is undone by the xor of the word's shifts by all multiples of the amount, and conversely |
| Words.MultiplierInverse | src/harness/rng.rs:24-25 | wrapping multiplication by a constant is undone by multiplication with its inverse modulo 2^64 |
| Draws.MixIsBijective | src/harness/rng.rs:23-26 | the output mixer is a bijection on 64-bit words, with the explicit inverse |
| Draws.StepApproaches | src/harness/rng.rs:22 | the golden-ratio increment brings the state one step nearer to every word it does not hit next |
| Draws.EveryStateIsReached | src/harness/rng.rs:19-22 | full period: from every state every word is the state within 2^64 steps |
| Draws.EveryOutputOccurs | src/harness/rng.rs:19-27 | from every state every word is the output of one of the next 2^64 draws |
| Draws.SplitMix64.NextU64 | src/harness/rng.rs:21-27 | a draw advances the state once and returns its mix |
| Draws.SplitMix64.Below | src/harness/rng.rs:35-39 | one draw, reduced modulo the bound and below it |
| Draws.SplitMix64.NextUnit | src/harness/rng.rs:29-33 | one draw, its top 53 bits as a fraction in [0, 1) |
| Draws.UnitRoundsDown | src/harness/rng.rs:29-33 | the fraction is a multiple of 2^-53, the word over 2^64 rounded down to one |
| Draws.Permutation | src/harness/rng.rs:46-53 | the in-place Fisher-Yates loop returns a permutation of 0..n, the shuffle by the picks the stream holds, and draws n - 1 outputs |
| Draws.EachPermutationHasOnePickSequence | src/harness/rng.rs:42-53 | Fisher-Yates is a bijection between pick sequences and permutations, which is what makes it uniform |
| Draws.PicksAreDetermined | src/harness/rng.rs:48-51 | two pick sequences that shuffle a duplicate-free sequence alike are equal |
| Draws.PicksExist | src/harness/rng.rs:48-51 | every rearrangement is the shuffle by some pick sequence |
| Draws.PermutationOfIdentity | src/harness/rng.rs:42-53 | a rearrangement of the identity is a duplicate-free sequence of all of 0..n |
| Draws.PicksAreOutputs | src/harness/rng.rs:48-51 | the picks of a shuffle are the stream's next outputs in order, each reduced to the positions still open |
| Draws.NeededBitApproaches | src/harness/rng.rs:66-68 | each draw either yields a given bit or brings the state nearer to drawing it |
| Draws.DistinctBits | src/harness/rng.rs:55-70 | the rejection loop ends for every state of the stream and k <= universe <= 32, with exactly k bits, all below the universe, those of the fewest draws that hold k; k = 0 draws nothing |
| IntegerPartitions.PartsAreExact | src/algorithms/aipa.rs:56-72 | the recursive enumeration lists exactly the non-increasing positive sequences with the given sum and largest part |
| IntegerPartitions.PartsDecrease | src/algorithms/aipa.rs:67-71 | the enumeration is strictly decreasing in lexicographic order |
| IntegerPartitions.PartsCounted | src/algorithms/aipa.rs:282-294 | the length of the enumeration satisfies the counting recurrence |
| IntegerPartitions.Enumerator.Generate | src/algorithms/aipa.rs:56-72 | the backtracking procedure appends exactly the partitions, each after the prefix, and restores the shared buffer |
| IntegerPartitions.GenerateIntegerPartitions | src/algorithms/aipa.rs:45-54 | the public entry returns the enumeration, the one empty partition for n = 0 |
| IntegerPartitions.EnumerationIsExact | src/algorithms/aipa.rs:26-72 | every partition of n is listed exactly once and nothing else is, in strictly decreasing order, as many as the recurrence counts |
| IntegerPartitions.PartitionCount | src/algorithms/aipa.rs:282-294 | the in-place table of 64-bit words returns the number of partitions modulo 2^64, exact if and only if that number fits in a word |
| IntegerPartitions.VerifyPartition | src/algorithms/aipa.rs:302-329 | the validity check accepts exactly the partitions of n |
| PartitionBounds.AggregatesAgree | src/algorithms/aipa.rs:201-225 | bounds from per-size aggregates equal the bounds computed bucket by bucket |
| PartitionBounds.AverageAtMostUpper | src/algorithms/aipa.rs:130-172 | the average bound of a partition is at most its upper bound |
| PartitionBounds.SortSorts | src/algorithms/aipa.rs:245-249 | the sort by upper bound is descending and a rearrangement |
| PartitionBounds.HeadAndLast | src/algorithms/aipa.rs:245-275 | the head of the sorted list is the first partition attaining the largest bound, the streaming maximum the last |
| PartitionBounds.StreamingMaximumIsSortedHead | src/algorithms/aipa.rs:230-276 | the streaming search and the head of the sorted list always have the same upper bound, and are the same partition exactly when only one attains it |
| PartitionBounds.BestDominates | src/algorithms/aipa.rs:258-276 | the best partition's bound is at least every partition's bound |
| PartitionBounds.StructureWithinBounds | src/algorithms/aipa.rs:101-199 | blocks whose values lie in their sizes' buckets are worth at least the minimum bound of their shape, at most its upper bound, and at most the best partition's |
| PartitionBounds.UnpricedSizesAddNothing | src/algorithms/aipa.rs:130-172 | a size without values adds nothing to either bound, and a partition of such sizes alone is bounded by zero |
| Averages.CoalitionsAreExact | src/algorithms/aipa.rs:108-110 | the coalitions of a size are exactly the ascending sequences of that many agents, each listed once |
| Averages.MeanIsAverageBound | src/algorithms/aipa.rs:147-172 | for buckets that hold the values of all coalitions of a pool, the average bound of a shape is the mean fitness over all labelled structures of the shape |
| Averages.SomeStructureReachesAverage | src/algorithms/aipa.rs:147-172 | every shape has a canonical structure worth at least its average bound |
| Averages.AverageIsLowerBoundExactly | src/algorithms/aipa.rs:147-172 | the average bound lies at or below every structure of a shape exactly when all structures of the shape are worth the same |
| Averages.AverageIsNoLowerBound | src/algorithms/aipa.rs:147-172 | a pool of three agents whose structure [0, 1, 0] is worth less than the average bound of its shape [2, 1] |
| SetPartitions.CanonicalIsUnique | src/algorithms/population.rs:96-99 | two canonical assignments that put the same pairs together are equal |
| SetPartitions.CanonicalForm | src/algorithms/population.rs:193-205 | canonicalising is idempotent, and equal on two assignments exactly when they induce the same partition |
| SetPartitions.Canonicalize | src/algorithms/population.rs:194-205 | the in-place relabelling with its remap table computes the canonical form |
| SetPartitions.AssignmentBlocks | src/algorithms/population.rs:212-222 | the bucket loop computes the non-empty blocks in ascending id order |
| SetPartitions.BlocksPartitionAgents | src/algorithms/population.rs:207-222 | the blocks are non-empty and ascending, and every agent is in exactly one, its own |
| SetPartitions.BlocksAscend | src/algorithms/population.rs:212-222 | the blocks come in strictly ascending order of their ids |
| SetPartitions.SamePartitionSameBlocks | src/algorithms/population.rs:96-117 | assignments inducing the same partition have the same blocks up to order |
| SetPartitions.CutHasShape | src/algorithms/population.rs:258-266 | cutting any permutation along a shape gives blocks of exactly the shape's sizes |
| SetPartitions.LabelsAreStretches | src/algorithms/population.rs:258-266 | the cut gives a position to the block whose stretch of the shape it lies in |
| SetPartitions.SeedRealisesShape | src/algorithms/population.rs:242-268 | a canonicalised cut is canonical, induces the cut's partition, and has the shape as its multiset of block sizes |
| Search.SeedAssignments | src/algorithms/population.rs:247-271 | the seeding loop over shapes, shuffles and cuts, as a function of the stream |
| Search.SeedsRealiseShapes | src/algorithms/population.rs:242-271 | for every stream each seeded particle is a canonical set-partition whose block sizes are the parts of its shape, the shapes taken cyclically |
| Search.SeedIsDrawn | src/algorithms/population.rs:247-271 | a seed is the canonical cut, along its cyclic shape, of the shuffle of 0..n by the stream's next n - 1 outputs, each reduced to the positions still open |
| Search.SeedsInTurn | src/algorithms/population.rs:247-271 | seed p starts where the seeds before it left the stream, n - 1 outputs each |
| Search.EveryShapeIsSeeded | src/algorithms/population.rs:242-271 | a population at least as large as the number of shapes has a seed of every partition of n as its block sizes |
| Search.DrawVelocity | src/algorithms/population.rs:342-355 | one velocity step over strictly increasing positions in the stream: with r the fraction of an agent's output, its block is the global best's exactly when r < pGbest, the personal best's exactly when pGbest <= r < pGbest + pPbest, and else the following output modulo the largest current id plus two, the one case that takes two outputs |
| Search.VelocityIsMove | src/algorithms/population.rs:342-355 | the same of the step as a function of the stream, with the state it leaves |
| Search.InitialSwarm | src/algorithms/population.rs:316-338 | the evaluated seeds and the first strict maximum among them |
| Search.Search | src/algorithms/population.rs:295-381 | the whole search loop computes the specified swarm run, with the trivial outcome for no agents |
| Search.SearchHolds | src/algorithms/population.rs:279-381 | in every run every personal best is at most the global best, every stored assignment is canonical, of length n, with its block-sum fitness, the lineage strictly increases and ends in the best, and every particle is evaluated once per iteration and once as a seed |
| Search.BestIsLargestEvaluated | src/algorithms/population.rs:331-374 | the global best is the largest fitness over every assignment ever evaluated, and was evaluated |
| SwarmHistory.EveryMoveIsDrawn | src/algorithms/population.rs:316-381 | every whole search read off its evaluations: the seeds, then the particles in turn, each moved by the step above, from the stream as the move before left it, the first fittest assignment so far, its own first fittest so far and its last; the result is the first fittest of all |
| SwarmHistory.CertainPullStays | src/algorithms/population.rs:331-374 | with pGbest >= 1 every move lands on the global best, with pGbest <= 0 and pGbest + pPbest >= 1 on the particle's own seed; either way the lineage has one epoch |
| Values.SumOverBlocks | src/algorithms/population.rs:224-240 | summing a per-agent amount over blocks and members is summing it over the agents |
| Values.AdditiveIsConstant | src/algorithms/value_calculation.rs:46-57 | under the additive calculator every coalition structure of a pool has the same fitness |
| Values.AdditiveSearchHasOneEpoch | src/algorithms/population.rs:23-30 | so a search with it always returns a lineage of one epoch |
| Values.FitnessWithinBounds | src/algorithms/population.rs:224-240 | with every block's value in its size's bucket, a structure's fitness lies within its shape's bounds and under the best partition's upper bound |
| Workflow.TracedPolicy.Record | src/harness/trace.rs:53-63 | recording appends one entry of the call's kind, act and score and returns the decision unchanged |
| Workflow.TracedPolicy.ShouldJoin | src/harness/trace.rs:67-74 | a join question is forwarded and recorded |
| Workflow.TracedPolicy.ShouldLeave | src/harness/trace.rs:76-83 | a leave question is forwarded and recorded |
| Workflow.JoinPass | src/harness/workflow.rs:613-626 | the first arrival joins, every later one exactly when the policy acts, shown the coalition without it |
| Workflow.ArrivalSweep | src/harness/workflow.rs:628-640 | the sweep of the arrival order over the current members, with its removals counted |
| Workflow.SnapshotSweep | src/harness/battery.rs:118-128 | the sweep of a snapshot of the members, dropping every occurrence of a leaver |
| Workflow.EndOfTask | src/harness/workflow.rs:599-640 | the members and removals a run reports for a task are those of the task's pass from the state its predecessors left |
| Questions.TaskIsAsked | src/harness/workflow.rs:599-640 | all that any policy is asked on a task under either driver: the demand, with the steps or none; every later arrival, shown those that joined before; the sweep's questions, each shown the members left; and its acts alone decide the final members |
| Questions.RunTells | src/harness/workflow.rs:700-701 | after a task's questions the policy is told the task's signal and, for every final member in order, its id and whether it performed |
| Questions.WatchingChangesNothing | src/harness/workflow.rs:599-640 | a policy that also logs its calls answers as without the log, so the two results above are about every policy |
| Outcomes.SignalBits | src/harness/workflow.rs:671-699 | the per-bit loops of the three outcome signals |
| Outcomes.RunWorkflowInstance | src/harness/workflow.rs:585-750 | the workflow runner: a missing or misshapen performance draw is refused before any task; else state, trace, success rate, coverage efficiency, primary and churn of the run under the chosen signal, and the performance-scored metrics exactly when there is a draw |
| Outcomes.RunInstance | src/harness/battery.rs:85-162 | the battery's runner: no steps shown, the members' union signalled, everyone performing; state, trace and metrics of the run |
| Scores.SuccessIsCompletion | src/harness/battery.rs:129-150 | a task is counted exactly when it is met: for the workflow a demand with steps, each of whose bits some final member of its role holds; for the battery, every required bit held by some final member |
| Scores.CovEffIsEfficiency | src/harness/workflow.rs:642-658 | a task's efficiency times its members times its demand is the number of demanded steps, or required bits, some final member holds; zero for nobody, and for an empty demand zero under the workflow and one over the members under the battery |
| Scores.FullEfficiencyIsCompletion | src/harness/battery.rs:129-150 | the efficiency is one over the members exactly on met tasks |
| Scores.ScoresCount | src/harness/workflow.rs:642-719 | on every run of either runner the successes are the number of met tasks, the efficiencies and removals are added over all tasks, and primary times the square of the number of tasks is the product of the two sums, zero without tasks |
| Scores.PerformingIsCovering | src/harness/workflow.rs:660-699 | the performance signal, the combined signal and the second scoring are coverage by the members that performed |
| Scores.RunnersTell | src/harness/workflow.rs:671-701 | the workflow runner tells the policy one entry per bit of the task's universe under the chosen signal and each agent's draw, all true without one; the battery 32 entries, those some final member holds, and that all performed |
| Scores.RefusedExactly | src/harness/workflow.rs:729-752 | a run is refused exactly when a signal other than role coverage has no draw, or the draw is not one row per task of one entry per agent, with the error that says which |
| Outcomes.PerformingCosts | src/harness/workflow.rs:482-497 | on every run the performance-scored successes, efficiency and primary are at most the covered ones, and equal exactly when each covered step of every task's final members is also performed |
| Outcomes.BothImpliesEither | src/harness/workflow.rs:201-212 | a bit set by the combined signal is set by role coverage and by performance |
| Outcomes.EitherIsNotBoth | src/harness/workflow.rs:201-212 | the converse fails: two agents set a bit in both signals and not in the combined one |
| Outcomes.SignalTellsSuccessExactly | src/harness/workflow.rs:673-699 | all demanded bits signalled means all steps covered, for every pool and membership, exactly when no bit is demanded of two roles |
| Trace.Reconstruct | examples/k7/k7_1.rs:354-457 | the decoding loop: members, churn and scores of every task, or the error of a short trace, a wrong entry or entries left over |
| Trace.RoundTrip | examples/k7/k7_1.rs:354-457 | for every policy and instance, decoding what the workflow driver recorded consumes the trace exactly, finds the driver's own members and removals at the end of every task, and reports these members and the primary |
| Scores.DecoderScoresTheRun | examples/k7/k7_1.rs:354-457 | for every policy the decoder reports the workflow runner's primary and removals, and of every task the size of its demand, the steps held and the efficiency |
| Trace.ReportedMembersAscend | examples/k7/k7_1.rs:354-457 | the members reported for a task are its final ones in ascending order |
| Trace.BatteryRoundTrip | src/harness/battery.rs:95-128 | the same for the battery, which sweeps a snapshot, on arrivals naming each agent at most once |
| Trace.SweepsAgree | src/harness/battery.rs:118-128 | on distinct arrivals the snapshot sweep asks the same agents in the same order with the same answers as the arrival sweep |
| Trace.RepeatedArrivalLost | src/harness/battery.rs:118-128 | with an agent arriving twice some policy's battery run is not recovered |
| Trace.BatteryRecoversExactlyDistinct | src/harness/battery.rs:95-128 | the battery's members and removals are recovered for every policy exactly when the arrivals are distinct |
| Trace.AcceptedExactlyIfRecorded | examples/k7/k7_1.rs:354-441 | the decoder accepts a trace exactly when some policy records it under the workflow driver |
| Trace.RefusalNamesTheQuestion | examples/k7/k7_1.rs:354-441 | every refusal, told by the kinds of the questions of the run that answers from the trace: the first that finds the trace over or an entry of the other kind gives the error, with its task and the kind asked for; if all are answered, the entries left are counted; else the run's ends are decoded |
| RefPrune.PrunedTask | examples/k7/k7_1.rs:263-341 | the greedy sweep ends in a coalition covering exactly the demanded steps all arrivals cover, and with distinct ids and arrivals no member can be spared |
| RefPrune.PrunedRun | examples/k7/k7_1.rs:263-341 | the same for every task of every run |
| RefPrune.SharedIdsAreKept | examples/k7/k7_1.rs:291-298 | distinct ids are needed: any pool with a shared id has capabilities, roles and a demand that leave a redundant member |
| RefPrune.BatteryPrunesEveryone | src/harness/battery.rs:96-99 | the battery shows the policy no steps, so under it every coalition is pruned to nobody |
| Routing.StarIsStochastic | src/decision/group_policy.rs:828-847 | every row of a candidate-star topology is a probability distribution, for every lambda in [0, 1] |
| Routing.RoutedMeansNotIdentity | src/decision/group_policy.rs:820-847 | a topology not counted as routed leaves every member's output as it is; one that is counted changes some output |
| Routing.HalfIsEnough | src/decision/group_policy.rs:828-847 | for lambda at least 1/2 and a centre whose output is a delta, every mixture with positive weights acts exactly as the centre votes |
| Routing.ThresholdIsOpposition | src/decision/group_policy.rs:958-1006 | for every roster and every confidence weight g of a routed row, the centre's decided vote carries against all outputs of the others exactly when (n - 1) g(lambda) (1 - 2 lambda) is below one |
| Routing.ThresholdBracket | src/decision/group_policy.rs:958-1006 | the centre decides when (n - 1)(1 - 2 lambda) is below one, does not when it is two or more, always from one half on, and on two members exactly when lambda is positive |
| Routing.LeaningIsConfidence | src/decision/group_policy.rs:999-1006 | there are weights with a confidence weight's properties |
| Routing.OriginReach | src/decision/group_policy.rs:923-975 | the accumulation loop, with and without a topology: rows reaching a sensitive member, and the weighted share of blind origin; only a routed read fails for a member without a distribution |
| Routing.UnroutedReach | src/decision/group_policy.rs:923-975 | without a topology the rows reached are the sensitive members, and a row is blind exactly when its member is |
| Routing.UnroutedShare | src/decision/group_policy.rs:923-975 | without a topology the blind share times the weight of the members that have a distribution is the weight of the blind ones, and zero when they weigh nothing |
| Routing.StarReach | src/decision/group_policy.rs:923-975 | with only the centre sensitive, the rows reached and the blind share of a star as functions of lambda |
| Routing.FullRoutingLeavesNothingBlind | src/decision/group_policy.rs:923-975 | at lambda 1 with only the centre sensitive every row is sensitive and the blind share is zero |
| GroupPolicy.GroupAifPolicy.BeginTask | src/decision/group_policy.rs:1277-1347 | opens the demand's task, or clears the task and counts the refusal, with every counter's new value |
| GroupPolicy.GroupAifPolicy.ObserveOutcome | src/decision/group_policy.rs:1366-1405 | an outcome advances the open task's models the engine accepts; a wrong width or no task changes only the unapplied count |
| GroupPolicy.GroupAifPolicy.Decide | src/decision/group_policy.rs:1467-1622 | a decision with its declines, mask tallies, routing, read and sample, as one step of the ledger |
| GroupPolicy.GroupAifPolicy.Read | src/decision/group_policy.rs:1496-1682 | the query-building loop and the read: tallies kept on failure, act above one half only |
| GroupPolicy.EveryRunBalances | src/decision/group_policy.rs:1277-1682 | over every call sequence and engine: decisions are reads plus the three declines, roster sizes plus empty slots are the roles of every opened task, every deterministic read leaves one sample, and the routed reads are the centred ones |
| Ledger.DecisionsAreReads | src/decision/group_policy.rs:1467-1682 | every decision of every run acts exactly when the last demand opened a task, all participants have roles and the engine builds every query and reads above one half; its score is positive exactly then, zero on a decline, and the read less one half, or its side of it when sampled |
| Ledger.EveryRunIsBooked | src/decision/group_policy.rs:1277-1682 | after every run each counter is the number of calls of its kind, the roster and query sums are those of the demands and questions, there is one sample per mixture read with the acts of its group and its centre, and each model was taught exactly the accepted outcomes that concern it |
| Ledger.RefusalNamesTheStep | src/decision/group_policy.rs:1277-1347 | a refused demand names the first step whose role is out of range, and is empty when there is none |
| Ledger.BuildsExactly | src/decision/group_policy.rs:1195-1217 | what the constructor accepts, which error each refusal gives, and the configuration it keeps |
| GroupPolicy.SensitiveIsCentre | src/decision/group_policy.rs:1713-1743 | under role-matched masks the candidate reaches exactly the roster member of its role |
| GroupPolicy.RoutedReadsAreSensitiveSamples | src/decision/group_policy.rs:1671-1678 | under role-matched masks the routed-read counter equals the samples with a sensitive member and a roster of two or more, for every positive lambda |
| GroupPolicy.RunRecords | src/decision/group_policy.rs:1277-1405 | the update and expectation counters of every run are those of its task stream |
| GroupPolicy.GateInTermsOfTasks | src/decision/group_policy.rs:735-748 | with every update applied the learning gate passes exactly when observations match openings, in total and per model |
| GroupPolicy.OneSlipFailsTheGate | src/decision/group_policy.rs:735-748 | with a single task skipped or doubled the gate fails whatever the engine accepts; with every task observed once and every update applied it passes |
| GroupPolicy.CancellingSlipsPass | src/decision/group_policy.rs:739-742 | two slips that cancel, one task skipped and another of the same demand doubled, pass the gate |
| Replays.RequiredByRoleOf | examples/k7/k7_2.rs:220-234 | the replay's own loop over a demand, dropping bits and roles outside its table |
| Replays.ReplayTask | examples/k7/k7_2.rs:240-303 | one task of the replay with a record per read, stopping where the trace ends |
| Replays.ReplayTrace | examples/k7/k7_2.rs:239-318 | the replay over a whole trace: the leave-path counts, and per read its task, kind, act and centre class, the sliding windows holding what the last two tasks demanding each role covered of its demand |
| Replays.RunRecorded | examples/k7/k7_2.rs:236-318 | for every policy, replaying what the workflow driver recorded consumes the trace exactly, makes one read per entry with the entry's task, kind and act, and has the driver's members at the end of every task |
| Replays.WindowIsRecentCoverage | examples/k7/k7_2.rs:239-318 | on a read of a recorded run the window class is set exactly when, on one of the last two earlier tasks that demanded the candidate's role, the run's final members covered a bit demanded of that role then and now |
| Replays.LeaveClassIsRedundancy | examples/k7/k7_2.rs:158-165 | on a leave read the class is identical exactly when every demanded step of the agent's role stays as covered without the agent |
| Replays.JoinClassIsAlone | examples/k7/k7_2.rs:158-165 | on a join read the class is identical exactly when every demanded step of the agent's role is as covered by the agent alone as with the members |
| Mirror.SameUnion | examples/k7/k7_2.rs:193-216 | the replay's union over pool indices is the policy's union over ids |
| Mirror.SameMasks | examples/k7/k7_2.rs:193-216 | the replay's two masks are the policy's |
| Mirror.SameRoster | examples/k7/k7_2.rs:220-242 | the replay's roster is the policy's |
| Mirror.MirrorAgrees | examples/k7/k7_2.rs:236-318 | over every run and engine the replay consumes the trace exactly, its leave-query count exceeds the ledger's by the queries never built, and both counts agree exactly when there are none |
| Mirror.ErrorFreeRunsAgree | examples/k7/k7_2.rs:172-187 | with all demanded roles in range and no upstream decline in the ledger the replay's counts are the policy's |
| PersistentArm.PersistentAifArm.ObserveOutcomeChecked | src/decision/aif_persistent_policy.rs:353-412 | a wrong width changes nothing; any other outcome enters the replay window, counts and resets the eviction counter, even when the engine rejects it |
| PersistentArm.PersistentAifArm.Decide | src/decision/aif_persistent_policy.rs:480-531 | no query without a demanded bit in the universe; else one query and its decision |
| PersistentArm.PersistentAifArm.ShouldJoin | src/decision/aif_persistent_policy.rs:595-617 | a locked-out agent is declined without a query |
| PersistentArm.PersistentAifArm.ShouldLeave | src/decision/aif_persistent_policy.rs:623-664 | an exhausted cap declines without a query; a leave-act is counted and dated |
| PersistentArm.EveryRunTracks | src/decision/aif_persistent_policy.rs:353-412 | after every run the replay window is the last two accepted observation vectors, the counter is the task's leave-acts and equals the wanted ones up to the cap, and the table holds each agent's last eviction |
| PersistentArm.EvictionCapHolds | src/decision/aif_persistent_policy.rs:150-157 | between accepted outcomes there are at most the cap's leave-acts, whatever the posteriors |
| PersistentArm.JoinActsExactly | src/decision/aif_persistent_policy.rs:595-617 | a join acts exactly when something is demanded, the read is above one half and the agent was not last evicted in one of the lockout's tasks before, provided the bar's end does not wrap |
| PersistentArm.LeaveActsExactly | src/decision/aif_persistent_policy.rs:623-664 | a leave acts exactly when its read wants out and fewer than the cap did since the last accepted outcome |
| PersistentArm.ScoresAreReads | src/decision/aif_persistent_policy.rs:480-531 | a call that puts a query and gets a read scores its distance from one half, a join acts exactly when that is positive; every other call scores zero and does not act |
| PersistentArm.QueriesAreCounted | src/decision/aif_persistent_policy.rs:480-531 | the query counter is the number of queries put, modulo 2^64 |
| PersistentArm.WindowReports | src/decision/aif_persistent_policy.rs:353-412 | the replay window holds, of the last two accepted outcomes, which demanded bits succeeded, which failed and which were not demanded |
| PersistentArm.LockoutWraps | src/decision/aif_persistent_policy.rs:605-615 | a lockout long enough to wrap the 64-bit sum bars nobody |
| Supervision.Supervise | src/core/supervision.rs:49-118 | the supervising loop with its pruned deque |
| Supervision.NoWindowOverspends | src/core/supervision.rs:29-32 | with non-decreasing readings no closed interval of the window's length holds more than the limit's restarts |
| Supervision.GivesUpExactly | src/core/supervision.rs:89-109 | a panic makes the supervisor give up exactly when the limit's restarts lie in the closed window ending now, and then it cancels the token |
| Supervision.EndStays | src/core/supervision.rs:58-107 | once stopped or given up it starts and cancels nothing more |
| Supervision.StartsAndCancels | src/core/supervision.rs:58-117 | only giving up cancels, and every start but the first is one restart |
| Supervision.StopsExactly | src/core/supervision.rs:58-107 | a waiting supervisor stops at exactly the turns that are no crash: cancelled before the start, a clean or aborted end, a panic after a cancel; it then cancels and restarts nothing |
| Supervision.EndsAtOneTurn | src/core/supervision.rs:58-107 | every run: all turns before the one that ends it crashed and were answered by one restart each, and it stopped exactly if that turn is no crash |
| CancelDrain.Drain.Next | src/core/drain.rs:29-47 | one poll, the cancel looked at first, with other threads sending between the count and the take |
| CancelDrain.OutputsArePrefix | src/core/drain.rs:7-11 | over every interleaving the yielded items are a prefix of the sent ones in order, and before the cancel is observed `None` means closed and all yielded |
| CancelDrain.PollBeforeCancel | src/core/drain.rs:29-47 | in every run a poll that does not see the cancel yields the oldest item sent and not yet yielded, one that comes in during the poll included; without one it answers `None` on a closed channel and is pending on an open one |
| CancelDrain.PollsYieldInTurn | src/core/drain.rs:31-47 | k polls before the cancel that find at least k items buffered yield the first k in order, whatever else happens in between |
| CancelDrain.DrainsWhatWasBuffered | src/core/drain.rs:7-11 | from the poll that observes the cancel on, the answers are the items buffered then, in order, and then `None` for ever, whatever is sent |
| Ingest.SampleMonitor.Ingest | src/ingest/monitor.rs:65-90 | a sample of another key is dropped; any other is pushed into the ring and its update returned |
| Ingest.RingHolds | src/ingest/monitor.rs:78-84 | from a fresh monitor the ring is the last capacity's accepted samples in order, and the latest view the last one's |
| Ingest.BoundedExactlyIfPositive | src/ingest/monitor.rs:78-81 | the ring stays within its capacity on every input exactly when the capacity is not zero |
| Ingest.MonitorLoop | src/ingest/monitor.rs:291-327 | the loop over its commands, as a function of them: the monitor left and the updates, acknowledgements, snapshots and pongs in order |
| Ingest.RepliesFollowUpdates | src/ingest/monitor.rs:291-327 | for every command sequence the updates published are those of all accepted samples in order, each command that asks is answered once and in order, a snapshot being the monitor after the commands before it, and when an answer goes out exactly the updates of the commands up to its own are out |
| Ingest.TasksRunTheLoop | src/ingest/monitor.rs:291-327 | in every interleaving a monitor's task makes the loop's effects of the commands it took, less an acknowledgement it still owes |
| Ingest.TaskRepliesFollowUpdates | src/ingest/monitor.rs:291-327 | so in every interleaving the bus carries of each monitor what its task published, and each answer comes after exactly the updates of the commands up to its own |
| Ingest.PumpSource | src/ingest/source.rs:100-155 | the pump alone: fed, dropped, bus and every monitor as functions of the samples drawn |
| Ingest.EveryRunKeeps | src/ingest/source.rs:100-155 | the books of the pump and of every monitor over every interleaving of taking, publishing, acknowledging, resuming, stops, source failures, cancels and other clients' commands |
| Ingest.CountedIsPublished | src/ingest/source.rs:90-92 | at every moment the counters cover all drawn samples but one whose fate is open, and of the pump's updates the bus holds the counted ones' in source order and at most one more; none more once the pump has ended, however it ended |
| Ingest.PublishedBeforeCounted | src/ingest/monitor.rs:309-314 | the bus runs ahead of the count from the publication of a sample to the pump's resumption |
| Ingest.MonitorsHold | src/ingest/monitor.rs:65-90 | with any clients, at every moment a monitor holds its capacity's suffix of the samples of its key it was given, the bus its updates of exactly those, and of the pump's samples it was given those routed to it |
| Ingest.ExhaustedPumpDelivered | src/ingest/source.rs:83-92 | an exhausted pump fed and dropped every sample, the bus holds their updates in source order, and each monitor was given those routed to it in source order |
| Ingest.PumpEndsExactly | src/ingest/source.rs:100-155 | how the pump ends: exhausted exactly by the draw after the last sample, cancelled only while drawing and losing a sample only while pacing it, failed by the source or at a stopped monitor; once ended it stays so |
| Ingest.SolePumpFills | src/ingest/source.rs:83-92 | when no other client sends samples, an exhausted pump leaves each monitor its capacity's suffix of the samples routed to it under its key |
| Ingest.ForwardedIsPublishedExactly | src/ingest/source.rs:90-92 | however the pump ends, every sample counted as fed was published exactly when the router sends each counted sample to a monitor bound to its key |
| Ingest.OwnKeyIsRouted | src/ingest/source.rs:88-89 | a monitor the router gives its own key receives every sample of that key |
| Dcvc.DCVCDistributor.DistributeWorkload | src/algorithms/dcvc.rs:35-87 | the two passes over agents and remainder, with the quotas rounded to any numbers |
| Dcvc.DCVCDistributor.VerifyDistribution | src/algorithms/dcvc.rs:122-135 | the check, in any order of the shares, accepts exactly the distributions giving every index below the total to one share once, and no other index |
| Dcvc.RightExactly | src/algorithms/dcvc.rs:35-87 | whatever the rounding, the distribution passes its check exactly when nothing is to be shared, or there is an agent and no non-empty consecutive share is replaced by a later agent of the same id |
| Dcvc.DistinctIdsAreRight | src/algorithms/dcvc.rs:35-87 | with distinct ids and at least one agent the distribution always passes |
| Dcvc.RemainderIsSmall | src/algorithms/dcvc.rs:66-80 | with exact quotas the remainder dealt round is smaller than the number of agents with trust |
| Dcvc.SharesAreFloorOrOneMore | src/algorithms/dcvc.rs:47-80 | with exact quotas every share is the floor of its quota or one more, the extra going to the first of the trust order, and agents without trust get none |
| Dcvc.SharesAreNamed | src/algorithms/dcvc.rs:35-87 | every share is filed under its own agent's id, and its size is its number of indices |
| SplitSeries.SplitLine | examples/metrics_scrape.rs:257-299 | the scanning loop with its quote and escape flags |
| SplitSeries.SplitUndoesPrinting | examples/metrics_scrape.rs:254-299 | a proper name and proper labels, printed with any text after them, split into exactly these |
| SplitSeries.SplitIsProper | examples/metrics_scrape.rs:254-299 | whatever a line splits into is a proper name and proper labels |
| SplitSeries.SplitUndoesPrintingExactly | examples/metrics_scrape.rs:254-299 | a printed series splits into what was printed exactly when its name and labels are proper |
| SplitSeries.EveryLineSplits | examples/metrics_scrape.rs:257-299 | every line: no value exactly without a brace or space; at a space the name stops, with no labels and all the rest; after a brace unterminated exactly when no brace closes it outside quotes, the rest being what follows the first that does |
| SplitSeries.PaddingIsIgnored | examples/metrics_scrape.rs:257-299 | space around labels and empty entries of the list change nothing: the labels come back in order, with the text after them |
| SplitSeries.ExpositionRoundTrip | examples/metrics_scrape.rs:254-256 | samples whose label values hold any characters, escaped as the exposition format does, come back |
| SplitSeries.KeysAreSeries | examples/metrics_scrape.rs:242-249 | two split lines share a map key exactly when they have the same name and the same labels in any order |
| SplitSeries.KeySplitsBack | examples/metrics_scrape.rs:242-249 | the key of a series without labels is its name; one with labels splits back into its name and its labels in ascending order |
| SplitSeries.ParseSamples | examples/metrics_scrape.rs:227-252 | the loop over the lines, failing at a bad one |
| SplitSeries.LabelledLineIsRead | examples/metrics_scrape.rs:230-249 | a labelled sample line, with any spacing, empty entries and text after the value, adds its value under its series' key, and is bad exactly if the value does not parse |
| SplitSeries.PlainLineIsRead | examples/metrics_scrape.rs:230-249 | the same of a line without labels |
| SplitSeries.SkippedExactly | examples/metrics_scrape.rs:230-234 | a line is skipped exactly when it is all space or its first other character is a hash |
| SplitSeries.SamplesAreLastValues | examples/metrics_scrape.rs:225-252 | a body parses exactly when no line is bad, and each series then has the value of its last line |

## Left out

- The inference engine (query construction, learning, sampling, decision seeds, the multiplicity
  channel's scales): its source is not part of this model; reads and updates are arbitrary.
- Entropies: a row's confidence weight enters by its properties only, so the lambda at which the
  threshold of `Routing.ThresholdIsOpposition` falls is bracketed, not computed.
- Agreement-sample fields that only restate the engine's votes and margins.
- The decoder's `roster` and `off_demand` counts: they read the decoded members and feed reports
  only.
- The drawing of workflow instances, their compositions and their performance tables: an instance
  and its draw are given.
- `calculate_statistics`, the remaining value calculators, and the threshold, scalar and multimodal
  policies: one-pass folds or restatements of the engine.
- Latency measurement and pacing sleeps: only the order of samples is kept. A cancel while pacing
  may lose one drawn sample, which `Ingest.CountedIsPublished` accounts for.
- Mailbox capacities and broadcast lag: a send is accepted when it happens, and the bus is the
  sequence of what was published. A monitor's ingestion and its bus send are one step, since only
  its own task sees its state in between.
- The topology and hypergraph layer, `record_trajectory`, persistence, gateways, report rendering,
  configuration, scraping and logging.
- HTTP bodies and the number parser of the metrics example: lines and a parsing function are
  parameters.
