# Verified models of the QAIC plugin's index-heavy components

Several components of this vLLM plugin for Qualcomm Cloud AI share one shape: a fast, stateful form (HVX lanes,
threads with barriers, padded batches, reused buffers, in-place swaps) must agree with a simple specification.
Each is modelled here in Dafny in the form the source has, and proved to agree.

| component | files | what is proved |
|---|---|---|
| MoE top-k router kernel | `bitonic`, `router_lanes`, `router_topk`, `router_top2`, `router_sentinel`, `router_select`, `router_route`, `router_result` | what each selection computes for all scores; the bitonic, HVX and scalar ones agree, so the size thresholds do not matter, exactly when enough candidates score above the sentinel |
| Fused add + RMS-norm kernel | `rms_kernel`, `rms_invariant`, `rms_proof`, `rms_theorems`, `rms_liveness`, `rms_races` | every interleaving of a core's threads and its DMA engine ends and leaves the right rows; exactly the launches with several threads race, on the status word alone, and only rewrite SUCCESS |
| Draft-model speculation | `draft_model`, `draft_proposer` | every proposal of every run is the uncached greedy continuation |
| DFlash speculation | `dflash_tracking`, `prefill_chunks`, `dflash_prefill`, `dflash_proposer` | the draft model is fed each target position once, in order, with its own hidden row, exactly when the final prefill step was committed |
| Speculative step layout | `array_ops`, `spec_layout` | padding, compaction mask and index arrays of a step agree |
| Prefill exec objects | `exec_model`, `exec_interleaving`, `prefill_chunks`, `exec_pool` | every token is sent once, no exec object is lost or shared, no batch waits for itself, and when context buckets are ordered |
| CI device scheduler | `device_pool`, `scheduler_model`, `scheduler` | devices are conserved and cooled down, gates are safe, and the run loop ends exactly when quarantine never blocks it |
| MoE batching by expert | `moe_batching` | sorting, run boundaries and indexed accumulation are the layer's sum |
| Batch reordering | `batch_reorder` | the swap loop splits any batch |
| Context-parallel slots | `slot_mapping` | positions map to ranks, offsets and slots one to one |
| Eager KV cache | `kv_history`, `eager_attention` | any split of a request over steps is one-shot causal attention |

`wrappers` and `arithmetic` hold what several components need.

How to read it. A component with mutable state is a class or a set of methods over arrays, whose contracts tie
every call to a specification function or a step of a state machine; the lemmas about those functions and over
whole runs state what the component is for. In the router a lane is a (score, id) pair and a score is an integer.
In the RMS-norm kernel an interleaving is a sequence of agents, each a thread or the DMA engine, which copies one
64-element chunk whenever it likes. In the draft model a KV entry records the whole prefix it was computed from,
so an entry written over a stale prefix is visibly different. In the eager layer attention is an arbitrary
function of a query and the keys it sees.

Assumptions made explicit in contracts: DMA transfers succeed; the HVX shuffles, maxima and predicates do what
their names say; the draft gate of the draft-model proposer is always open and requests are not preempted;
accepted tokens are a prefix of the last drafts plus one token; for the scheduler's termination, a job that is
still running finishes some time, time goes on, and quarantine never blocks the queue, which follows when all
readiness checks succeed and is necessary too (any number of jobs may complete between two scans, and every
acquire reads the clock for itself); and for routing a whole token, selection scores are at least the lowest
finite fp16 value -65504, which is also the sentinel.

What is not true of the code is stated with its exact condition and an example: the selections miss the true top
experts at the sentinel (`RouterSentinel.SelectedIsTopKIff`, `RouterRoute.RoutedRightIff`,
`RouterRoute.ThresholdExample`); the RMS-norm kernel is free of data races exactly when it is launched with one
thread per core, because the status word is stored and read without a barrier in between
(`RmsRaces.RaceFreeIffOneThread`; what is raced for is in `RmsLiveness.OnlyStatusRace`); the table of active
context buckets is right exactly as long as no entry is cleared after its exec object has been taken again, and
otherwise buckets in flight can decrease (`ExecInterleaving.RecordsRightIff`,
`ExecInterleaving.LateClearExample`); a request whose final prefill meets a closed gate is fed one position too
many for ever (`DFlashTracking.InStepIffCommitted`); a failed readiness check can stop the scheduler for good
(`SchedulerModel.RunEndsIff`, `SchedulerModel.BlockedRun`).

Where the code and its own comments disagree the model follows the code, and a lemma says so: chunks in flight on
the prefill exec objects can run with different context buckets (`ExecModel.OneBucketIff`), and an eager
attention layer that shares another layer's keys never finds an entry to read
(`EagerAttention.Layer.SharingReadsNothing`).

`dafny verify dfyconfig.toml` checks the whole project.

## Model

| member | source | states |
|---|---|---|
| `Bitonic.HalfClean` | csrc/grouped_topk_router/grouped_topk_router_common.h:808-864 | one compare-exchange step on a bitonic sequence leaves two bitonic halves, every element of the one at most every element of the other (0-1 principle over thresholds) |
| `Bitonic.MonotonePairBitonic` | csrc/grouped_topk_router/grouped_topk_router_common.h:867-908 | a monotone run followed by one in the other direction is bitonic: the input of every phase of the sort |
| `Bitonic.StepRefines` | csrc/grouped_topk_router/grouped_topk_router_common.h:808-864 | a step of stride m takes ordered bitonic blocks of size 2m to ordered bitonic blocks of size m, within every phase block |
| `Bitonic.StepOrders` | csrc/grouped_topk_router/grouped_topk_router_common.h:808-864 | after a step, entries of different m-blocks of a phase block are in that phase block's direction |
| `Bitonic.PhaseDone` | csrc/grouped_topk_router/grouped_topk_router_common.h:867-908 | once single lanes are ordered, every pair of neighbouring phase blocks is bitonic, as the next phase needs |
| `RouterLanes.RankIsOrder` | csrc/grouped_topk_router/grouped_topk_router_common.h:86-91 | the integer rank of a (score, id) lane orders lanes exactly as 'higher score, then lower id' does |
| `RouterLanes.StepPermutes` | csrc/grouped_topk_router/grouped_topk_router_common.h:808-864 | whenever partner lanes share their mask bits, a step only moves pairs around: no pair is lost or copied |
| `RouterLanes.StepIsExchange` | csrc/grouped_topk_router/grouped_topk_router_common.h:808-864 | with the masks of a phase, the value test plus the id test of the step is a compare-exchange on ranks |
| `RouterLanes.PairExchanged` | csrc/grouped_topk_router/grouped_topk_router_common.h:808-864 | with opposite score and id masks the lower lane of a pair gets the smaller or larger rank, as the mask says, and the upper lane the other |
| `RouterLanes.SortWorstFirst` | csrc/grouped_topk_router/grouped_topk_router_common.h:867-908 | all 21 steps together return the same 64 lanes, worst first in (score, id) order |
| `RouterLanes.NothingLost` | csrc/grouped_topk_router/grouped_topk_router_common.h:910-931 | keeping the larger of two vectors lane by lane splits the 128 lanes into kept and dropped ones |
| `RouterLanes.SentinelNeverWins` | csrc/grouped_topk_router/grouped_topk_router_common.h:910-931 | against a vector of scores at or above -65504, a lane at or below -65504 is never kept: for the merge it is the same as padding |
| `RouterLanes.SquashedMonotone` | csrc/grouped_topk_router/grouped_topk_router_common.h:867-908 | turning every lane at or below -65504 into padding leaves a worst-first vector worst first |
| `RouterLanes.KeptIsBitonic` | csrc/grouped_topk_router/grouped_topk_router_common.h:910-931 | the kept lanes of a best-first and a worst-first vector form a bitonic sequence, although only values are compared, provided ties favour the first vector |
| `RouterLanes.MergeKeepFirst` | csrc/grouped_topk_router/grouped_topk_router_common.h:910-962 | for any scores of the second vector, the merge returns the best 64 of the 128 lanes, best first, where lanes at or below -65504 count as padding, and drops the rest |
| `RouterTopK.TopUnique` | csrc/grouped_topk_router/grouped_topk_router_common.h:86-91 | there is only one list of distinct candidates in (score descending, id ascending) order with every other candidate worse |
| `RouterTopK.TopK` | csrc/grouped_topk_router/grouped_topk_router_common.h:1129-1157 | the reference result: k candidates, best first, all others worse than each of them |
| `RouterTopK.EarlierWinsTies` | csrc/grouped_topk_router/grouped_topk_router_common.h:1036-1069 | because ids ascend over chunks, a value-only tie between the running best and a new chunk is always won rightly by the running best |
| `RouterTopK.MergeHolds` | csrc/grouped_topk_router/grouped_topk_router_common.h:1036-1069 | one chunk's sort and merge keeps: the running vector holds the best lanes of everything seen |
| `RouterTopK.RankIsCandidate` | csrc/grouped_topk_router/grouped_topk_router_common.h:1036-1069 | as long as there are more than r candidates, rank r of the running vector is a candidate and not padding |
| `RouterTopK.RankIsPadding` | csrc/grouped_topk_router/grouped_topk_router_common.h:1036-1069 | once the candidates above -65504 have run out, every further rank of the running vector is padding |
| `RouterTopK.HeldIsTop` | csrc/grouped_topk_router/grouped_topk_router_common.h:1036-1069 | the leading lanes of the running vector list the top candidates |
| `RouterTopK.HeldIsBest` | csrc/grouped_topk_router/grouped_topk_router_common.h:1036-1060 | a vector that holds the best of everything seen lists distinct candidates best first, and every candidate left out is worse |
| `RouterTopK.BitonicBest` | csrc/grouped_topk_router/grouped_topk_router_common.h:1036-1060 | after all chunks, for any number and any scores of candidates, the running vector lists the best min(64, m) of the m candidates above -65504 in (score descending, id ascending) order, and every other lane is padding |
| `RouterTopK.SelectTopKCandidatesBitonic` | csrc/grouped_topk_router/grouped_topk_router_common.h:1036-1069 | for any scores the bitonic selection succeeds exactly when k candidates score above -65504, and then returns the top k with weights from the unmasked scores; otherwise a padding lane's id INT32_MAX would index the scores |
| `RouterTop2.TopPairUnique` | csrc/grouped_topk_router/grouped_topk_router_common.h:644-671 | a pair is determined by how many elements (up to two) reach each threshold |
| `RouterTop2.LargestIsTopPair` | csrc/grouped_topk_router/grouped_topk_router_common.h:644-671 | two elements at least all others form the top pair of a span |
| `RouterTop2.Top2SumScalar` | csrc/grouped_topk_router/grouped_topk_router_common.h:644-671 | the scalar scan returns the sum of the two largest elements, twice the element for a span of one |
| `RouterTop2.MergeLaneTop` | csrc/grouped_topk_router/grouped_topk_router_common.h:552-560 | merging two lanes' pairs gives the top pair of both lanes' elements together |
| `RouterTop2.MergeTop2` | csrc/grouped_topk_router/grouped_topk_router_common.h:552-560 | the whole-vector merge gives every lane the top pair of its own and its partner's elements |
| `RouterTop2.RotatedTotal` | csrc/grouped_topk_router/grouped_topk_router_common.h:588-605 | lane counts add up over a rotation: the first n lanes after it hold what the first n and the n from the shift on held, so nothing is counted twice |
| `RouterTop2.RotationHolds` | csrc/grouped_topk_router/grouped_topk_router_common.h:588-605 | if the first 2s lanes together hold a span's elements before a rotation by s, the first s lanes do after it |
| `RouterTop2.ReduceTop2` | csrc/grouped_topk_router/grouped_topk_router_common.h:588-605 | six rotations leave the top pair of all lanes' elements in lane 0 |
| `RouterTop2.Top2SumHvx` | csrc/grouped_topk_router/grouped_topk_router_common.h:562-605 | for every non-empty span, whatever its tail, the HVX sum equals the scalar one |
| `RouterSelect.LeaderIsNext` | csrc/grouped_topk_router/grouped_topk_router_common.h:705-722 | the leader of a masked scan is the next entry of the top list |
| `RouterSelect.ScanForBest` | csrc/grouped_topk_router/grouped_topk_router_common.h:713-717 | a scalar scan leaves the leader of everything scanned, lower index winning ties |
| `RouterSelect.MaxScore` | csrc/grouped_topk_router/grouped_topk_router_common.h:489-543 | the HVX maximum is reached by an element and bounds all of them |
| `RouterSelect.FirstWithScore` | csrc/grouped_topk_router/grouped_topk_router_common.h:725-758 | the first index with the target score |
| `RouterSelect.SelectTopGroups` | csrc/grouped_topk_router/grouped_topk_router_common.h:705-722 | scalar group selection returns exactly the top groups |
| `RouterSelect.SelectTopGroupsHvx` | csrc/grouped_topk_router/grouped_topk_router_common.h:736-746 | HVX group selection returns the same |
| `RouterSelect.SelectFromGroupsScalar` | csrc/grouped_topk_router/grouped_topk_router_common.h:1131-1157 | the scalar expert rounds choose what ScanSelect says, for all scores down to the sentinel, leave the chosen ones masked and take weights from the unmasked scores |
| `RouterSelect.SelectFromGroupsHvx` | csrc/grouped_topk_router/grouped_topk_router_common.h:1160-1192 | the HVX rounds, which skip groups with a lower maximum, choose the same |
| `RouterSelect.ChosenIsTopK` | csrc/grouped_topk_router/grouped_topk_router_common.h:1131-1192 | with all scores above the sentinel the rounds choose exactly the top k |
| `RouterSentinel.ScanStuck` | csrc/grouped_topk_router/grouped_topk_router_common.h:1131-1157 | once all scores above -65504 are used up, every further round takes the candidate with the lowest id, chosen before or not |
| `RouterSentinel.ScanIsTopKIff` | csrc/grouped_topk_router/grouped_topk_router_common.h:1131-1192 | the rounds choose the true top k if and only if k candidates score above -65504, or k - 1 do and the candidate with the lowest id scores exactly that |
| `RouterSentinel.SentinelExample` | csrc/grouped_topk_router/grouped_topk_router_common.h:1131-1157 | scores 5 and -65504 with k = 2: expert 0 is chosen twice |
| `RouterSentinel.AlgorithmsAgreeIff` | csrc/grouped_topk_router/grouped_topk_router_common.h:1289-1301 | the bitonic and the masked-scan selection give the same result if and only if k candidates score above -65504 |
| `RouterSentinel.SelectedIsTopKIff` | csrc/grouped_topk_router/grouped_topk_router_common.h:1289-1301 | the selection the sizes pick is the true top k if and only if k candidates score above -65504, or a scan needs one more and the candidate with the lowest id scores exactly -65504 |
| `RouterRoute.GroupExpertsSize` | csrc/grouped_topk_router/grouped_topk_router_common.h:1097-1106 | distinct groups have size-many experts each and share none |
| `RouterRoute.InsertionSort` | csrc/grouped_topk_router/grouped_topk_router_common.h:1083-1094 | the in-place insertion sort returns the same groups in ascending order |
| `RouterRoute.BuildCandidates` | csrc/grouped_topk_router/grouped_topk_router_common.h:1095-1106 | over sorted groups the candidate ids ascend strictly and are exactly the groups' experts, which is what the merge's tie-break needs |
| `RouterRoute.SelectFromGroupsBitonic` | csrc/grouped_topk_router/grouped_topk_router_common.h:1072-1112 | the bitonic path stores the bitonic outcome for the groups' experts, in whatever order the groups were selected and for any scores |
| `RouterRoute.SelectExperts` | csrc/grouped_topk_router/grouped_topk_router_common.h:1289-1301 | the method the sizes pick stores the outcome the sizes pick, for all scores down to -65504; SelectedIsTopKIff says when that is the top k |
| `RouterRoute.SelectGroups` | csrc/grouped_topk_router/grouped_topk_router_common.h:1271-1279 | whichever of the two group selections runs, the groups are the same |
| `RouterRoute.ScoreGroup` | csrc/grouped_topk_router/grouped_topk_router_common.h:1257-1269 | a group's score: with bias and at least two experts the sum of two elements of its span that every other element is at most, with bias and one expert twice the element, without bias an element that bounds the span; for all scores down to -65504 |
| `RouterRoute.ScoreGroups` | csrc/grouped_topk_router/grouped_topk_router_common.h:1257-1269 | all groups are scored |
| `RouterRoute.RoutedExperts` | csrc/grouped_topk_router/grouped_topk_router_common.h:1235-1306 | the reference routing lists distinct experts of the routed groups |
| `RouterRoute.RoutedRightIff` | csrc/grouped_topk_router/grouped_topk_router_common.h:1235-1301 | grouped routing selects the best experts of the best groups if and only if enough experts of those groups score above -65504, or a scan needs one more and the lowest-numbered expert scores exactly -65504 |
| `RouterRoute.AllAboveRouted` | csrc/grouped_topk_router/grouped_topk_router_common.h:1235-1301 | in particular always when all scores are above -65504, whatever algorithm the sizes pick |
| `RouterRoute.ThresholdExample` | csrc/grouped_topk_router/grouped_topk_router_common.h:1289-1301 | three experts above -65504 and four wanted: with 64 experts the bitonic path fails, with 63 the scan chooses expert 0 twice |
| `RouterRoute.NormalizeAndStore` | csrc/grouped_topk_router/grouped_topk_router_common.h:1195-1224 | outputs hold the selected experts' scaled weights, then zeros and id 0 |
| `RouterRoute.RenormalizedSum` | csrc/grouped_topk_router/grouped_topk_router_common.h:1195-1224 | with renormalisation and a positive weight sum the stored weights add up to the scaling factor |
| `RouterRoute.ZeroTopK` | csrc/grouped_topk_router/grouped_topk_router_common.h:1227-1232 | all weights and ids are zero |
| `RouterRoute.RouteGrouped` | csrc/grouped_topk_router/grouped_topk_router_common.h:1235-1306 | grouped routing of a token for all scores down to -65504: zeros for a bad shape, otherwise the experts of RoutedOutcome, which RouterResult.GroupedResult describes by the scores alone, with their weights, or the failure it names |
| `RouterRoute.SelectRegularBitonic` | csrc/grouped_topk_router/grouped_topk_router_common.h:1114-1127 | regular routing's bitonic path stores the bitonic outcome over all experts, for any scores |
| `RouterRoute.SelectRegularScalar` | csrc/grouped_topk_router/grouped_topk_router_common.h:1336-1353 | its scalar loop makes the rounds of the masked scan over all experts, for all scores down to -65504 |
| `RouterRoute.RouteRegular` | csrc/grouped_topk_router/grouped_topk_router_common.h:1309-1358 | regular routing of a token for all scores down to -65504: zeros for a bad shape, otherwise the outcome the sizes pick over all experts (RouterResult.RegularResult) with its weights, or its failure |
| `RouterResult.RoutedGroupsAreBest` | csrc/grouped_topk_router/grouped_topk_router_common.h:1257-1279 | with group scores described by the selection scores alone (with bias the two largest added, else the largest), a group that is left out scores less than every routed one, or the same with a higher number |
| `RouterResult.GroupedResult` | csrc/grouped_topk_router/grouped_topk_router_common.h:1235-1301 | with all scores above -65504: min(topk_group, groups) distinct best groups, and of their experts the best min(topk, all of them), best first, whatever algorithm the sizes pick |
| `RouterResult.RegularResult` | csrc/grouped_topk_router/grouped_topk_router_common.h:1309-1353 | with all scores above -65504: the best min(topk, n) of all experts, best first |
| `RouterResult.WeightsResult` | csrc/grouped_topk_router/grouped_topk_router_common.h:1195-1224 | stored weights are the unmasked scores times the factor; or with renormalisation times a scale that takes the sum of the chosen scores to the factor, unless that sum is 0; the rest is zero |
| `RouterResult.GroupedShapes` | csrc/grouped_topk_router/grouped_topk_router_common.h:1241-1247 | grouped routing takes exactly the shapes with 1 to 128 equal groups of at least 2 experts, at most 1024 experts, 1 to 128 groups asked for and 1 to 64 experts asked for |
| `RouterResult.BiasExample` | csrc/grouped_topk_router/grouped_topk_router_common.h:1257-1301 | selection scores 5, 0 and 4, 4 in two groups of two: with bias group 1 is routed and experts 2 and 3 chosen, without it group 0 and experts 0 and 1 |
| `RouterRoute.TokenHasOneWorker` | csrc/grouped_topk_router/grouped_topk_router_common.h:1415-1423 | every token is in exactly one worker's range, for any number of workers |
| `RmsProof.InitHolds` | csrc/add_rms_norm/kernel.cpp:255-261 | the invariant of the kernel's step system holds at entry |
| `RmsProof.BarrierHolds` | csrc/add_rms_norm/kernel.cpp:28-55 | passing a barrier keeps the invariant: the last arrival publishes every thread's chunk of the phase |
| `RmsProof.WorkHolds` | csrc/add_rms_norm/kernel.cpp:96-159 | every step of a thread between barriers keeps the invariant |
| `RmsTheorems.EngineHolds` | csrc/add_rms_norm/kernel.cpp:57-82 | every chunk the DMA engine copies, at any time, keeps the invariant |
| `RmsTheorems.StepHolds` | csrc/add_rms_norm/kernel.cpp:96-383 | every step of any agent keeps the invariant |
| `RmsTheorems.RunHolds` | csrc/add_rms_norm/kernel.cpp:250-383 | in every state of every interleaving: the slot being read holds the current row while the other fills, sums and buffers are as far as their owner's loop index, DDR rows behind are done |
| `RmsTheorems.RowHasOneOwner` | csrc/add_rms_norm/kernel.cpp:267-296 | every row has exactly one (core, iteration) |
| `RmsTheorems.ThreadsShareRow` | csrc/add_rms_norm/kernel.cpp:96-131 | the threads' partial sums add up to the sum of squares of the whole row |
| `RmsTheorems.FinishedRunIsCorrect` | csrc/add_rms_norm/kernel.cpp:169-384 | when all threads have returned, every chunk of every row of the core holds the chunk sum and the normalised chunk, and rows of other cores are untouched; FinishedElements says what these are |
| `RmsTheorems.FinishedElements` | csrc/add_rms_norm/kernel.cpp:96-159 | element by element: the one output is attn + x, the other (attn + x) times invRms of the sum of (attn + x) squared over all elements of the row, times weight |
| `RmsTheorems.BarriersPassed` | csrc/add_rms_norm/kernel.cpp:123-382 | a thread's place in the program is the number of barriers it has passed |
| `RmsTheorems.BarriersWhenDone` | csrc/add_rms_norm/kernel.cpp:123-382 | a thread has returned if and only if it has passed 3 + 4 * rowIters barriers |
| `RmsTheorems.SomeoneMoves` | csrc/add_rms_norm/kernel.cpp:250-383 | no interleaving deadlocks: unless all have returned, some agent can step |
| `RmsLiveness.WritesCoverChanges` | csrc/add_rms_norm/kernel.cpp:96-383 | a step changes no cell of shared memory (slots, buffers, partial sums, both DDR matrices, status word, prefetch handle) outside its declared write set |
| `RmsLiveness.ReadsSuffice` | csrc/add_rms_norm/kernel.cpp:96-383 | a step depends on no cell outside its declared read set: states that agree on it, on the threads and on the transfer in flight have the same step, writing the same values |
| `RmsLiveness.WorkersShare` | csrc/add_rms_norm/kernel.cpp:96-383 | two threads' next actions share the status word exactly when thread 0 stores it while priming slot 0 and the other has yet to look at the status of the weight copy; they share nothing else |
| `RmsLiveness.EngineSharesNothing` | csrc/add_rms_norm/kernel.cpp:57-343 | what the DMA engine copies next no thread touches: prefetch and computation use different slots, results leave after the last write |
| `RmsLiveness.OnlyStatusRace` | csrc/add_rms_norm/kernel.cpp:258-290 | over all runs the only cell two next actions share is the status word, exactly when thread 0 stores a status while priming and the other lags behind at the first barrier, and the store writes SUCCESS over SUCCESS; RmsRaces.RaceFreeIffOneThread says which launches get there |
| `RmsRaces.RaceReached` | csrc/add_rms_norm/kernel.cpp:258-283 | for every launch with more than one thread per core, with rows or without, a run in which thread 0 can store a status that thread 1 can read |
| `RmsRaces.RaceFreeIffOneThread` | csrc/add_rms_norm/kernel.cpp:168-384 | a launch has no data race in any state of any run if and only if it has one thread per core |
| `RmsLiveness.MeasureDrops` | csrc/add_rms_norm/kernel.cpp:250-383 | every step lowers a measure of remaining work |
| `RmsLiveness.RunsAreBounded` | csrc/add_rms_norm/kernel.cpp:250-383 | so runs have bounded length |
| `RmsLiveness.MaximalRunFinishes` | csrc/add_rms_norm/kernel.cpp:250-383 | a run that cannot go on has finished, within that bound |
| `DraftModel.DecodeExtends` | vllm_qaic/spec_decode/qaic_draft_model.py:226-232 | one decode at the next position over a cache of the true prefix caches the longer prefix and predicts the greedy token |
| `DraftModel.PrefillExtends` | vllm_qaic/spec_decode/qaic_draft_model.py:155-173 | a prefill of all tokens but the last caches exactly that prefix |
| `DraftModel.DraftExtends` | vllm_qaic/spec_decode/qaic_draft_model.py:228-271 | K chained decodes return the uncached greedy continuation |
| `DraftModel.FirstProposal` | vllm_qaic/spec_decode/qaic_draft_model.py:121-273 | on the first step after the prompt (one token more than it) the proposal is the greedy continuation of the prompt plus that token, whatever was in the slot before |
| `DraftModel.CaughtUp` | vllm_qaic/spec_decode/qaic_draft_model.py:191-222 | after any acceptance, the catch-up leaves the cache agreeing with the whole history before the bonus token |
| `DraftModel.NextProposal` | vllm_qaic/spec_decode/qaic_draft_model.py:121-273 | so a later proposal is the greedy continuation of the new history, for every number of accepted drafts |
| `DraftModel.OnlyHole` | vllm_qaic/spec_decode/qaic_draft_model.py:191-206 | before the catch-up the cache is right for the next step if and only if not all K drafts were accepted, or leftover memory happens to be the missing entry |
| `DraftModel.ContinuationAt` | vllm_qaic/spec_decode/qaic_draft_model.py:228-271 | token j of a continuation is greedy after the history and the j tokens before it |
| `DraftModel.EntriesRead` | vllm_qaic/spec_decode/qaic_draft_model.py:226-232 | entry p of the cache of a history has seen exactly the p entries before it and token p |
| `DraftProposer.Proposer.Decode` | vllm_qaic/spec_decode/qaic_draft_model.py:229-238 | one batched decode writes one entry per slot and leaves other slots alone |
| `DraftProposer.Proposer.PrefillNew` | vllm_qaic/spec_decode/qaic_draft_model.py:121-173 | every row with exactly one token more than its prompt gets all tokens but that one cached, every other row's slot and every other slot stay as they are |
| `DraftProposer.Proposer.CatchUp` | vllm_qaic/spec_decode/qaic_draft_model.py:203-222 | exactly the requests with K + 1 sampled tokens decode the last draft at the position before the bonus token |
| `DraftProposer.Proposer.DraftLoop` | vllm_qaic/spec_decode/qaic_draft_model.py:228-271 | the loop over parallel rows is, row by row, K chained decodes |
| `DraftProposer.Proposer.Propose` | vllm_qaic/spec_decode/qaic_draft_model.py:88-273 | a call does to every row what the per-row specification says, to no other slot anything, and returns nothing for prefilling rows |
| `DraftProposer.BatchIsGreedy` | vllm_qaic/spec_decode/qaic_draft_model.py:88-273 | one call over a mixed batch returns the greedy continuation of every decoding request and keeps the slots' invariant |
| `DraftProposer.RunKeepsWorld` | vllm_qaic/spec_decode/qaic_draft_model.py:88-273 | over any run of verify and propose steps the caches agree with the true histories, up to the one known hole |
| `DraftProposer.RunIsGreedy` | vllm_qaic/spec_decode/qaic_draft_model.py:88-273 | over every run in which a request's first step has one token more than its prompt and later ones any number of accepted drafts and one token more, every proposal is the uncached greedy K-token continuation of the request's history |
| `DraftProposer.DraftsArePredicted` | vllm_qaic/spec_decode/qaic_draft_model.py:88-273 | in every run a decoding request gets K drafts, and draft j is what the model predicts when it reads the request's tokens and drafts 0 .. j - 1 from scratch, entry by entry |
| `DFlashTracking.EventKeepsStep` | vllm_qaic/spec_decode/dflash_draft_model.py:273-331 | a prefill chunk, a committed final step or a decode step keeps counter and feeds in step |
| `DFlashTracking.LifeStaysInStep` | vllm_qaic/spec_decode/dflash_draft_model.py:273-410 | over any life with committed final prefill, counter + 2 is the token count and positions 0 .. counter have been fed once each, in order, with their own hidden rows; later closed gates included |
| `DFlashTracking.LifeGoesOn` | vllm_qaic/spec_decode/dflash_draft_model.py:273-410 | a legal event makes a life of a request one step longer |
| `DFlashTracking.DecodeIsLegal` | vllm_qaic/worker/model_runner.py:1668-1683 | the rows a decode call leaves for inputs that start at the newest token (the positions of SpecLayout.PaddedInputAt) are those a decode event asks for |
| `DFlashTracking.UncommittedFinal` | vllm_qaic/spec_decode/dflash_draft_model.py:365-378 | a final-prefill step with the gate closed feeds one position too many, paired with a row that is not its own |
| `DFlashTracking.LifeOffByOne` | vllm_qaic/spec_decode/dflash_draft_model.py:365-410 | and the request stays one ahead for ever |
| `DFlashTracking.InStepIffCommitted` | vllm_qaic/spec_decode/dflash_draft_model.py:365-410 | after any step of a decoding request, counter + 2 equals the token count if and only if the final-prefill step was committed, and then exactly positions 0 .. counter have been fed, in order, each with its own hidden row |
| `DFlashTracking.GateClosedExample` | vllm_qaic/spec_decode/dflash_draft_model.py:365-410 | a one-token prompt prefilled while the gate is closed: the smallest life that goes out of step |
| `DFlashPrefill.NumPrefillChunks` | vllm_qaic/model_loader/qaic.py:745-753 | the number of buffers is the sum of the requests' rounded-up chunk counts |
| `DFlashPrefill.PrefillRequest` | vllm_qaic/model_loader/qaic.py:766-877 | a request fills exactly its own run of buffers: token j's row is at buffer j / prefill_seq_len, offset j mod prefill_seq_len |
| `DFlashPrefill.RunPrefill` | vllm_qaic/model_loader/qaic.py:766-877 | with one global chunk counter over any mix of lengths, every request's buffers are right |
| `DFlashPrefill.BuildPrefillPending` | vllm_qaic/spec_decode/dflash_draft_model.py:143-189 | the slices taken for each request are exactly its own buffers and positions |
| `DFlashProposer.SubBlockInChunk` | vllm_qaic/spec_decode/dflash_draft_model.py:237-244 | when the block size divides prefill_seq_len no sub-block straddles two buffers |
| `DFlashProposer.SubBlockRows` | vllm_qaic/spec_decode/dflash_draft_model.py:233-244 | a sub-block pairs every position with the hidden row of that position, and padding with -1 |
| `DFlashProposer.Proposer.constructor` | vllm_qaic/spec_decode/dflash_draft_model.py:57-103 | a new proposer has no pending work and every request is fresh |
| `DFlashProposer.Proposer.RunSubBlock` | vllm_qaic/spec_decode/dflash_draft_model.py:246-271 | one call feeds exactly the unpadded rows of the sub-block to the request, and nothing to others |
| `DFlashProposer.Proposer.PrefillStep` | vllm_qaic/spec_decode/dflash_draft_model.py:197-331 | a work item of one request feeds all its rows once, moves the counter to its last position and, if it ends the prompt, keeps the last sub-block's output as candidates |
| `DFlashProposer.Proposer.UpdatePrefillKv` | vllm_qaic/spec_decode/dflash_draft_model.py:191-195 | draining the list does this for every request and empties it |
| `DFlashProposer.Proposer.Propose` | vllm_qaic/spec_decode/dflash_draft_model.py:333-434 | a batched call advances every active row by what it accepted; with the gate open an active row that ran gets blockSize - 1 drafts, draft j being candidate j + 1 of this call, a row whose prefill just ended gets candidates 1 and on of that prefill, all others none; positions and hidden rows are filled index by index; requests outside the batch keep their feeds and are forgotten |
| `DFlashProposer.ServedOnce` | vllm_qaic/spec_decode/dflash_draft_model.py:365-372 | the drafts of a prefill, its candidates from the second on, are returned by the first committed call and by no later one |
| `DFlashProposer.ItemOkIsReady` | vllm_qaic/spec_decode/dflash_draft_model.py:143-189 | the work items built from the filled buffers are what the drain expects, when each request's positions are consecutive |
| `DFlashProposer.Proposer.EngineStep` | vllm_qaic/worker/model_runner.py:1572-1594 | one engine step does to every request of the batch what its event says; a request that has followed a life so far follows it on, so over any history of steps it is in step with its feeds if its final prefill was committed |
| `DevicePool.DevicePoolObject.TryAcquire` | ci_scripts/scheduler.py:120-129 | fails exactly when too few free devices have cooled down; otherwise takes the first of them |
| `DevicePool.DevicePoolObject.Release` | ci_scripts/scheduler.py:131-156 | ready devices become free with a new cooldown, the others are quarantined, quarantined ones are checked again |
| `DevicePool.AcquireTakesFirst` | ci_scripts/scheduler.py:120-129 | a successful acquire takes count devices that were never released or whose cooldown is over, each before any such device it leaves, and leaves exactly the others free |
| `DevicePool.AcquireMoves` | ci_scripts/scheduler.py:120-129 | acquired devices are cool and distinct and leave the pool without loss or copy |
| `DevicePool.ReleaseReturns` | ci_scripts/scheduler.py:131-156 | released devices come back without loss or copy, free or quarantined |
| `DevicePool.ReleaseSorts` | ci_scripts/scheduler.py:131-156 | a release frees exactly the passing ones of its own and the quarantined devices, each until now + cooldown, and quarantines exactly the failing ones |
| `SchedulerModel.DispatchHolds` | ci_scripts/scheduler.py:250-270 | dispatching a ready job keeps the scheduler's invariant |
| `SchedulerModel.CompleteHolds` | ci_scripts/scheduler.py:335-339 | so does completing a job, passed or failed |
| `SchedulerModel.RunHolds` | ci_scripts/scheduler.py:228-339 | the invariant holds in every state of every run |
| `SchedulerModel.DevicesConserved` | ci_scripts/scheduler.py:113-156 | at every state free, quarantined and running-held devices are the initial pool, each exactly once |
| `SchedulerModel.CooldownRespected` | ci_scripts/scheduler.py:120-156 | no device is handed out before its cooldown after its last release has passed |
| `SchedulerModel.OwnersFirst` | ci_scripts/scheduler.py:205-226 | until the owner of a model's export, or of a configuration's compile, is done, no other job with that key has been dispatched |
| `SchedulerModel.OneOwner` | ci_scripts/scheduler.py:192-203 | every key has exactly one owner, its first job |
| `SchedulerModel.GatesStayOpen` | ci_scripts/scheduler.py:214-226 | gates never close, and nothing dispatched or done is undone |
| `SchedulerModel.ReadyIff` | ci_scripts/scheduler.py:192-218 | in every state of every run the gates let a job through if and only if the earlier jobs that are the first with its model or with its configuration are done |
| `SchedulerModel.RunningHolds` | ci_scripts/scheduler.py:120-156 | in every state of every run a running job holds exactly as many devices as it asks for, distinct ones of the pool, neither free nor quarantined |
| `SchedulerModel.FirstPendingReady` | ci_scripts/scheduler.py:205-212 | with nothing running the first pending job is ready, because gate owners come earlier in the queue |
| `SchedulerModel.QuarantineBlocksIff` | ci_scripts/scheduler.py:120-156 | with nothing running, some event is still possible, now or later, if and only if a gate-ready pending job needs at most the devices not in quarantine |
| `SchedulerModel.RunsAreShort` | ci_scripts/scheduler.py:228-339 | no run has more than two events per job, whatever the readiness checks say |
| `SchedulerModel.RunEndsIff` | ci_scripts/scheduler.py:228-339 | whatever the readiness checks say, a run cannot go on if and only if all jobs are dispatched once and done, or nothing runs and no gate-ready pending job fits the devices not in quarantine |
| `SchedulerModel.BlockedRun` | ci_scripts/scheduler.py:131-156 | a run that gets stuck: two one-device jobs, one device, and its readiness check fails at the first release; the second job stays pending for ever |
| `Scheduler.ScanHolds` | ci_scripts/scheduler.py:248-270 | a scan of the queue keeps reachability and moves each job it takes off the queue to the running set |
| `Scheduler.ScanMoves` | ci_scripts/scheduler.py:248-270 | once nothing is cooling down, a gate-ready job that fits the free devices can start at its turn in a scan |
| `Scheduler.WaitHolds` | ci_scripts/scheduler.py:276-277 | however many jobs complete one after the other before the run thread gets the condition back, and whichever devices pass their checks, each named job that was running is done and the rest is as before |
| `Scheduler.RoundProgress` | ci_scripts/scheduler.py:233-278 | unless quarantine blocks the queue, a round of the loop leaves less work, or brings the next due wake-up one step nearer |
| `Scheduler.BlockedStays` | ci_scripts/scheduler.py:233-278 | once quarantine blocks the queue no round changes anything any more |
| `Scheduler.EndedNeverBlocked` | ci_scripts/scheduler.py:233-278 | a loop that has emptied its queue was blocked in none of its rounds: never being blocked is needed for it to end, and RunAll shows that it suffices |
| `Scheduler.PassingNeverBlocks` | ci_scripts/scheduler.py:131-156 | if every job fits the pool and every readiness check passes, quarantine never blocks the queue |
| `Scheduler.SomeoneServes` | ci_scripts/scheduler.py:228-278 | the environment that termination asks for exists, for any jobs that fit the pool and any state |
| `Scheduler.ReachableInv` | ci_scripts/scheduler.py:228-339 | every state the object reaches satisfies the model's invariant |
| `Scheduler.SchedulerObject.constructor` | ci_scripts/scheduler.py:160-190 | a new scheduler is in an initial state of the model |
| `Scheduler.SchedulerObject.ClaimGates` | ci_scripts/scheduler.py:192-203 | jobs are cold exactly when they are the first with their model (or have none), or the first with their configuration |
| `Scheduler.SchedulerObject.IsReady` | ci_scripts/scheduler.py:205-212 | ready exactly when every gate the job does not own is open |
| `Scheduler.SchedulerObject.TryDispatch` | ci_scripts/scheduler.py:248-265 | a job starts exactly when it is ready and enough free devices have cooled down, by a dispatch step of the model |
| `Scheduler.SchedulerObject.Scan` | ci_scripts/scheduler.py:247-272 | a scan tries every pending job once, in queue order, each against the state its predecessors left and at its own reading of the clock |
| `Scheduler.SchedulerObject.ReleaseGates` | ci_scripts/scheduler.py:214-218 | a job opens exactly the gates it owns |
| `Scheduler.SchedulerObject.Complete` | ci_scripts/scheduler.py:335-339 | the completion section is a completion step of the model |
| `Scheduler.SchedulerObject.Wait` | ci_scripts/scheduler.py:276-277 | the wait is any number of completion steps, one after the other, with any outcome of the readiness checks |
| `Scheduler.SchedulerObject.RunRound` | ci_scripts/scheduler.py:233-278 | one round is a scan and a wait of the model; it never leaves without waiting while something is pending or running |
| `Scheduler.SchedulerObject.RunAll` | ci_scripts/scheduler.py:228-278 | if every job still running finishes some time, time goes on and quarantine never blocks the queue, the loop ends with every job dispatched exactly once and done and no device lost; if all checks pass, all devices are free |
| `ExecModel.PlacedOnce` | vllm_qaic/model_loader/qaic_session_np.py:102-106 | no exec object is in two places and each is somewhere; free ones and pending ones add up |
| `ExecModel.PopPlace` | vllm_qaic/model_loader/qaic.py:711-719 | waiting for a batch's oldest chunk removes exactly one element from the submission order |
| `ExecModel.CompleteHolds` | vllm_qaic/model_loader/qaic.py:1065-1076 | completing keeps: exec objects placed once, idle ones without bucket, buckets in flight non-decreasing in submission order |
| `ExecModel.TakeHolds` | vllm_qaic/model_loader/qaic.py:720-731 | so does submitting with a bucket at least every one in flight |
| `ExecModel.ChunksHold` | vllm_qaic/model_loader/qaic.py:638-731 | and so does any number of chunks of a batch |
| `ExecModel.SynchronizeHolds` | vllm_qaic/worker/model_runner.py:975-988 | after synchronize_input_prep an exec object is free |
| `ExecModel.ApplyHolds` | vllm_qaic/worker/model_runner.py:975-1012 | no batch and no output request leaves the producer stuck |
| `ExecModel.RunHolds` | vllm_qaic/model_loader/qaic.py:600-743 | the invariant holds in every state of every run |
| `ExecModel.ProducerSafe` | vllm_qaic/model_loader/qaic.py:600-743 | in every state of every run each exec object is free or pending in exactly one batch, and buckets in flight are non-decreasing in submission order |
| `ExecModel.NeverStuck` | vllm_qaic/worker/model_runner.py:975-1012 | after any run of whole batches and outputs the next batch finds a free exec object and never waits on its own empty queue |
| `ExecModel.OneBucketIff` | vllm_qaic/model_loader/qaic.py:620-636 | with all chunks in flight on one bucket, the next batch shares it if and only if its own prompts need no larger one; the comment that all chunks in flight share one bucket is not what the code does |
| `ExecModel.BucketsCanDiffer` | vllm_qaic/model_loader/qaic.py:620-636 | two short batches whose chunks run at the same time with different buckets |
| `ExecModel.SynchronizeFrees` | vllm_qaic/worker/model_runner.py:975-988 | with nothing idle a new batch first waits for the whole latest one, whose exec objects are then idle in submission order; otherwise it waits for nothing |
| `ExecModel.SubmitTurns` | vllm_qaic/model_loader/qaic.py:711-731 | chunk c of a batch runs on idle exec object c modulo their number, for any number of chunks, and the batch waits only for its own oldest chunks |
| `ExecModel.SubmitRuns` | vllm_qaic/model_loader/qaic.py:620-636 | all chunks of a batch run with one bucket, which covers the batch's need and everything in flight and is one of these |
| `ExecInterleaving.ActHolds` | vllm_qaic/model_loader/qaic.py:670-731 | beginning a batch, submitting its next chunk, and other threads returning, clearing and marking single exec objects of earlier batches all keep every exec object in one place, and none halts |
| `ExecInterleaving.NeverBlocked` | vllm_qaic/model_loader/qaic.py:711-719 | whatever the other threads do, a running batch can always submit its next chunk, and between batches an exec object is free or the latest batch has one to return |
| `ExecInterleaving.InterleavedSafe` | vllm_qaic/model_loader/qaic.py:600-743 | in every state of every interleaving of single returns, clears and chunks each exec object is free or pending in exactly one batch |
| `ExecInterleaving.RecordsStayIff` | vllm_qaic/model_loader/qaic.py:1065-1076 | one action keeps active_ccl right about everything in flight if and only if it does not clear the entry of an exec object that has been taken again with a bucket |
| `ExecInterleaving.RecordsRightIff` | vllm_qaic/model_loader/qaic.py:1065-1076 | over a run active_ccl is right in every state if and only if every clear comes before its exec object is taken again |
| `ExecInterleaving.OrderedSoFar` | vllm_qaic/model_loader/qaic.py:620-636 | as long as it does, the chunks in flight run with non-decreasing buckets in submission order |
| `ExecInterleaving.LateClearExample` | vllm_qaic/model_loader/qaic.py:1065-1076 | a run of two exec objects and three batches in which a clear comes too late and a chunk with bucket 1 is submitted behind one running with 7 |
| `ExecInterleaving.SubmitIsChunks` | vllm_qaic/model_loader/qaic.py:638-731 | the whole-batch event is draining the latest batch one exec object after the other if none is free, beginning the batch and submitting its chunks one by one |
| `ExecPool.Producer.constructor` | vllm_qaic/model_loader/qaic_session_np.py:102-106 | a new producer has all exec objects free |
| `ExecPool.Producer.CompleteInf` | vllm_qaic/model_loader/qaic.py:1065-1076 | the oldest exec object of the batch's queue goes to the end of the free queue and loses its bucket |
| `ExecPool.Producer.CompleteAllInf` | vllm_qaic/worker/model_runner.py:1001-1009 | a batch's queue is drained |
| `ExecPool.Producer.ProduceOutput` | vllm_qaic/worker/model_runner.py:194-232 | only the first call for a batch waits |
| `ExecPool.Producer.SynchronizeInputPrep` | vllm_qaic/worker/model_runner.py:975-988 | drains the outstanding batch exactly when no exec object is free |
| `ExecPool.Producer.PickBucket` | vllm_qaic/model_loader/qaic.py:629-634 | the smallest bucket that covers the batch's longest prompt, or the largest if none does |
| `ExecPool.Producer.SubmitChunk` | vllm_qaic/model_loader/qaic.py:711-731 | one chunk, after waiting for an own chunk when all exec objects are taken |
| `ExecPool.Producer.RunPipelinePrefill` | vllm_qaic/model_loader/qaic.py:638-731 | the request and chunk loops submit as many chunks as the padded lengths need, all with one bucket; every chunk has its request's slice of ids and positions, padded with -1, and only the final chunk of a whole prompt is marked last |
| `PrefillChunks.TokenSentOnce` | vllm_qaic/model_loader/qaic.py:640-700 | every token of a request is in exactly one of its chunks, at its place and with its own position |
| `PrefillChunks.TokenOfBatch` | vllm_qaic/model_loader/qaic.py:638-731 | entry p of a batch, in request r, is in piece base(r) + t / w at t mod w, where t counts from r's first entry and base(r) the pieces of earlier requests; that piece is marked as r's |
| `ExecPool.Producer.ExecuteModel` | vllm_qaic/model_loader/qaic.py:600-743 | a whole batch is the model's submit event, sends every token once and keeps the object ready for the next |
| `ExecPool.Producer.AsyncOutput` | vllm_qaic/worker/model_runner.py:194-232 | asking for an output is the model's output event: the batch's queue is empty afterwards, its exec objects are behind the free ones in order, unless it was asked for before |
| `ArrayOps.BlockAt` | vllm_qaic/worker/model_runner.py:842-848 | entry j of block i of a repeat and of the batched ranges, and their length |
| `SpecLayout.DraftsFitKernel` | vllm_qaic/worker/model_runner.py:716-735 | the full kernel runs whenever there is a proposal and a decode request, and every request's drafts fit the kernel that runs |
| `SpecLayout.PaddedInputAt` | vllm_qaic/worker/model_runner.py:827-866 | padded row r * (K + 1) + t of the input is position computed[r] + t of request r |
| `SpecLayout.DraftIndexAt` | vllm_qaic/worker/model_runner.py:934-950 | draft j of request r has draft index r * mdt + j: the pads before it make up for the accepted lengths |
| `SpecLayout.TargetAt` | vllm_qaic/worker/model_runner.py:925-933 | and target index kept-base(r) + j |
| `SpecLayout.CompressIsKept` | vllm_qaic/worker/model_runner.py:1024-1050 | the mask cuts exactly the padding out of every request and keeps the order |
| `SpecLayout.DraftTokensLineUp` | vllm_qaic/worker/model_runner.py:912-973 | draft_token_ids holds, at the draft's place, padded input r * mdt + 1 + j, the token the table has j + 1 places after the request's computed tokens |
| `SpecLayout.TargetRowsLineUp` | vllm_qaic/worker/model_runner.py:1014-1073 | the compacted row at a draft's target index is padded logits row r * mdt + j |
| `SpecLayout.BonusRowsLineUp` | vllm_qaic/worker/model_runner.py:912-1073 | each bonus index is the request's last kept row: for a prefill request its only one, with K = 0 as well |
| `SpecLayout.BonusRowsEnd` | vllm_qaic/worker/model_runner.py:912-1073 | bonus indices end the requests' rows one after the other, the last one the whole array |
| `SpecLayout.CumulativeCounts` | vllm_qaic/worker/model_runner.py:921-927 | both cumulative arrays have one entry per request: cu_num_draft_tokens[r] counts the drafts up to r, cu_num_sampled_tokens[r] the drafts plus one row each |
| `SpecLayout.DraftSlice` | vllm_qaic/worker/model_runner.py:912-973 | request r's slice of draft_token_ids and target_logits_indices is cu_num_draft_tokens[r - 1] .. [r]; its entries are r's drafts in order, and its bonus index is cu_num_sampled_tokens[r] - 1 |
| `SpecLayout.RowSlice` | vllm_qaic/worker/model_runner.py:1014-1073 | r's kept rows are the slice cu_num_sampled_tokens[r - 1] .. [r] of the compacted rows: its decode rows up to the last draft, or its prefill row |
| `SpecLayout.SlicesCover` | vllm_qaic/worker/model_runner.py:912-1073 | the last cumulative counts are the lengths of the draft arrays and of the compacted rows |
| `MoeBatching.SumPermuted` | vllm_qaic/ops/unquantized_fused_moe_method.py:62-66 | the order of token-expert pairs does not matter for any token's sum |
| `MoeBatching.FlatSum` | vllm_qaic/ops/unquantized_fused_moe_method.py:53-60 | over the flattened pairs a token's sum is the layer's definition, repeated choices included |
| `MoeBatching.RunsCover` | vllm_qaic/ops/unquantized_fused_moe_method.py:70-79 | the boundaries cut the sorted ids into non-empty runs of one expert each, without gaps |
| `MoeBatching.ExpertsOnce` | vllm_qaic/ops/unquantized_fused_moe_method.py:77-79 | with sorted ids every expert has exactly one run, in ascending order |
| `MoeBatching.Boundaries` | vllm_qaic/ops/unquantized_fused_moe_method.py:70-79 | the change positions are such a cut |
| `MoeBatching.AccumulateRun` | vllm_qaic/ops/unquantized_fused_moe_method.py:83-118 | one run adds its weighted outputs to the rows of its tokens, also when a token occurs twice |
| `MoeBatching.AccumulateRuns` | vllm_qaic/ops/unquantized_fused_moe_method.py:81-119 | after all runs each row holds what all sorted pairs add to it |
| `MoeBatching.Forward` | vllm_qaic/ops/unquantized_fused_moe_method.py:38-121 | out[t][h] is the end of the partial sums of weight[t][k] * Expert(id[t][k], x[t])[h] over k, in exact arithmetic; without any pair the first boundary lookup fails with an index error |
| `BatchReorder.MisplacedPairUp` | vllm_qaic/worker/model_runner.py:2153-2163 | the i-th prefill from the left lies in the decode half exactly when the i-th decode from the right lies outside it, and exactly while i is at most the number of misplaced rows |
| `BatchReorder.SwapAllMoved` | vllm_qaic/worker/model_runner.py:2153-2163 | the m-th pair swapped has changed places |
| `BatchReorder.ReorderedIsSplit` | vllm_qaic/worker/model_runner.py:2153-2165 | the swaps put all decodes first and move no row that was in place |
| `BatchReorder.Classify` | vllm_qaic/worker/model_runner.py:2139-2150 | the index lists of decodes and prefills, and the decode tokens |
| `BatchReorder.SwapLoop` | vllm_qaic/worker/model_runner.py:2153-2163 | the loop with its early break makes exactly as many swaps as there are misplaced rows |
| `BatchReorder.ReorderBatch` | vllm_qaic/worker/model_runner.py:2124-2165 | any batch becomes a permutation of itself whose first num_decodes rows are exactly those with computed at least prompt; num_decode_tokens is the sum of what these rows schedule; rows in place stay; modified says whether it was not split before |
| `SlotMapping.OneRank` | vllm_qaic/patch/patch_block_table.py:58-67 | every position is local to exactly one context-parallel rank |
| `SlotMapping.OffsetsBijective` | vllm_qaic/patch/patch_block_table.py:58-74 | when the interleave size divides the block size, a rank's positions of a virtual block map one to one onto the offsets 0 .. block_size - 1 |
| `SlotMapping.OffsetsStayInsideIff` | vllm_qaic/patch/patch_block_table.py:68-74 | with several ranks, offsets stay inside the block for all positions if and only if the interleave size divides the block size |
| `SlotMapping.SlotsDistinct` | vllm_qaic/patch/patch_block_table.py:58-77 | two local tokens share a slot if and only if they share the physical block and the place in the virtual block |
| `SlotMapping.PositionWritten` | vllm_qaic/patch/patch_block_table.py:45-77 | position n * (block * world) + turn * (world * interleave) + rank * interleave + place uses table entry n, and only that rank has a slot for it, turn * interleave + place places into the physical block |
| `SlotMapping.WriteDown` | vllm_qaic/patch/patch_block_table.py:45-77 | every position can be written so, when the interleave size divides the block size |
| `SlotMapping.SameEntryIff` | vllm_qaic/patch/patch_block_table.py:45-53 | two positions use the same table entry if and only if they lie in the same run of block * world positions |
| `SlotMapping.OneRankIsPlain` | vllm_qaic/patch/patch_block_table.py:42-87 | with world size 1 the interleaved formula equals the plain branch |
| `SlotMapping.RankPairs` | vllm_qaic/patch/patch_block_table.py:40-41 | each (pcp, dcp) pair has its own total rank below the world size |
| `SlotMapping.TokenOfRequest` | vllm_qaic/patch/patch_block_table.py:28-30 | token j of request r is looked up in that request's row of the block table |
| `SlotMapping.SlotOfToken` | vllm_qaic/patch/patch_block_table.py:28-77 | the slot of token j of request r from the digits of its position: its rank pcp * dcp_world + dcp finds the block in the request's own row of the table, every other rank gets -1 |
| `SlotMapping.ComputeSlotMapping` | vllm_qaic/patch/patch_block_table.py:19-87 | both branches write every token's slot, or -1 for other ranks' tokens, and pad the rest |
| `KvHistory.MaskedIsSeen` | vllm_qaic/attention/backends/qaic_attn.py:433-443 | the shifted causal mask leaves a query exactly the keys up to its own position |
| `KvHistory.StoredIsHistoryIff` | vllm_qaic/attention/backends/qaic_attn.py:392-413 | a step leaves exactly the request's keys if and only if it brings all of them or the cache held all earlier ones: an evicted request must come back with its whole context |
| `KvHistory.BatchIsStep` | vllm_qaic/attention/backends/qaic_attn.py:363-455 | serving a batch request by request is one step on the whole cache, in which requests outside the batch are gone |
| `KvHistory.RowsAreOutputs` | vllm_qaic/attention/backends/qaic_attn.py:373-455 | the rows written for each request are the outputs of the step, although the cache changes while the batch is served |
| `KvHistory.CacheIsHistory` | vllm_qaic/attention/backends/qaic_attn.py:363-413 | while a request stays in the batch the cache holds exactly its keys so far, whatever other requests do |
| `KvHistory.SplitsDoNotMatter` | vllm_qaic/attention/backends/qaic_attn.py:363-455 | for any split into chunks and decode steps output p is the attention of query p to keys 0 .. p, as in one-shot causal attention |
| `KvHistory.KeysOfStep` | vllm_qaic/attention/backends/qaic_attn.py:373-413 | the keys a step brings for a request follow, in the request's keys, those it brought before |
| `KvHistory.BatchRowsAreCausal` | vllm_qaic/attention/backends/qaic_attn.py:363-455 | over any run the row a call writes for query k of a staying request is attention to all keys of its earlier steps and its first k + 1 keys of this one |
| `EagerAttention.Layer.constructor` | vllm_qaic/attention/backends/qaic_attn.py:264-266 | a new layer caches nothing |
| `EagerAttention.Layer.Evict` | vllm_qaic/attention/backends/qaic_attn.py:363-367 | requests that left the batch lose their entry, the others keep it |
| `EagerAttention.Layer.Store` | vllm_qaic/attention/backends/qaic_attn.py:391-413 | a request's new keys are written behind its earlier ones, or from the start for a whole context; other requests' buffers are untouched |
| `EagerAttention.Layer.AttendRows` | vllm_qaic/attention/backends/qaic_attn.py:421-455 | each query of a request attends to the keys up to its own position; other output rows stay |
| `EagerAttention.Layer.ServeRequest` | vllm_qaic/attention/backends/qaic_attn.py:373-455 | one request of the loop |
| `EagerAttention.Layer.Forward` | vllm_qaic/attention/backends/qaic_attn.py:328-457 | a forward call is one step on the cache, after which only requests of the batch have an entry, and writes exactly the batch's rows |
| `EagerAttention.Layer.SharingReadsNothing` | vllm_qaic/attention/backends/qaic_attn.py:384-419 | a layer that shares another layer's keys never has an entry of its own, so it leaves the output as it was; the comment that it reads an existing cache does not hold for this per-layer cache |

## Left out

- Floating point: scores are integers and weights and activations reals, so fp16 and bf16 rounding, NaN, softmax, sigmoid and the qf16 intrinsics are not modelled.
- Score materialisation (softmax, sigmoid, bias addition, grouped_topk_router_common.h:103-451): routing starts from given token and selection scores.
- The unused variants of the router helpers that fold the bias into the scan (grouped_topk_router_common.h:460-485, 608-641, 674-702): same scans over other inputs.
- RouterRoute.RouteGrouped: a failure stands for the read of `token_scores[INT32_MAX]`, whose effect is undefined. Selection scores of negative infinity are excluded, like all infinities: a softmax or sigmoid score is never negative, so only an infinite bias makes one.
- RouterRoute.RouteRegular: excludes infinite selection scores for the same reason.
- RouterRoute.SelectExperts: excludes infinite selection scores for the same reason.
- RouterRoute.SelectRegularScalar: excludes infinite selection scores for the same reason.
- RouterRoute.ScoreGroup: excludes infinite selection scores for the same reason.
- RouterRoute.ScoreGroups: excludes infinite selection scores for the same reason.
- RouterSelect.SelectFromGroupsScalar: excludes infinite selection scores for the same reason.
- RouterSelect.SelectFromGroupsHvx: excludes infinite selection scores for the same reason.
- RouterTop2.Top2SumHvx: excludes infinite scores for the same reason.
- RouterLanes.SortWorstFirst: the register-level shuffles and masks are taken as what they compute per lane (partner of a lane, direction bit of a lane).
- DMA failures in the RMS-norm kernel: every transfer succeeds, so a thread that would return early because of a bad status is only shown never to be there.
- csrc/add_rms_norm/kernel_bf16.cpp: same protocol with another output addressing scheme.
- csrc/reshape_and_cache: key store and key load use different in-block layouts; the value round trip alone is easy.
- VTCM size checks and address layout of both kernels: buffers are separate values.
- Draft-model runs in which the length gate closes or a request is preempted and restarted.
- DFlash rows `position_ids` and `input_ids`, and the logits buffer: only target positions, hidden rows and batch indices decide what the draft model has been fed.
- Whisper, mrope, LoRA and multimodal inputs of the prefill loops, and device time-outs of the exec queues.
- A KV producer batch without any prefill chunk: the source asserts that scheduled batches have tokens, and every producer batch is a prefill.
- ExecPool.Producer.ExecuteModel: runs a batch without interruption; what other threads return and clear between its chunks is covered by ExecInterleaving, whose uninterrupted runs are these.
- ExecInterleaving.Act: the main thread's own steps (begin a batch, submit one chunk) are atomic, and two threads never wait for the same batch at once.
- Decode exec objects and the synchronous drain at the end of a pipeline prefill.
- Two overlapping DevicePool.release calls: the scheduler always holds its condition, so release is one step.
- DevicePool.AcquireTakesFirst: takes clock readings as not negative, because a device without a cooldown entry is compared with 0; the source reads a monotonic clock.
- DevicePool.ReleaseSorts: takes now + cooldown as positive for the same reason.
- Subprocess launch, log files, process killing, dry runs, time-outs and the summary of the scheduler.
- BatchReorder.ReorderBatch: a batch row is one record; the many arrays swap_states keeps in step are upstream code.
- MoeBatching.Forward: the sort is any permutation that puts experts in order (the stable argsort is one); the expert is an arbitrary row function, so gates, activations and biases are not spelled out.
- SlotMapping.ComputeSlotMapping: takes token counts per request in place of their running starts; PAD_SLOT_ID comes from vLLM, which is not part of this model, and is taken as -1.
- EagerAttention.Layer.Forward: keys and values are kept as pairs in one buffer, head repetition is part of the attention function, and a query with no visible key attends to nothing where the source's softmax has no defined value.
- SpecLayout.BonusRowsLineUp: input arrays are sequences; the device copies and the discard mask are left out.
- _prepare_input_ids with asynchronous scheduling: depends on upstream state that this runner resets.
- Multimodal processors, vision encoders, platform and config patches, pooling, model loading and compilation.
- vllm_qaic/ops/mm_encoder_attention.py: gather, apply and scatter per length group.
