# A verified model of llm-compressor's calibration and quantization core

llm-compressor compresses language models after training. This project models the parts of it whose correctness is hardest
to see from the code, and proves what they are for:

- **The sequential calibration pipeline.** A traced model is cut into partitions, each partition becomes a subgraph with
  named inputs and outputs, and every subgraph runs over every batch twice: once to calibrate and, after its modules have been
  compressed, once more to propagate outputs through a cache. `SequentialPipeline.Run` is the whole loop. When every
  compression changes only modules of its own subgraph, each batch ends with what the final model computes on it, every
  calibration pass sees what the model with the earlier subgraphs compressed produces, and between subgraphs the cache holds
  exactly the live values. The last outputs are right if and only if the output node lands in the last partition. That is
  decided on the graph, before anything runs: a node's key spells out the greatest of the longest paths to it, nodes leave
  the partitioner's queue in the order of their keys (`QueueOrder`), and the output node is in the last partition if and only
  if every target's key is before its own (`OutputPartition.OutputLastIff`). Smaller depths of all targets suffice, as when
  they reach the output node; a target of larger depth rules it out, and such a graph is given. Prefetching batches in a
  background thread is shown to change nothing about either pass, for every interleaving.
- **GPTQ.** Blocked, lazily propagated column quantization computes what updating all later columns at once computes, for
  every block size and with or without the mask of zeros. The loss it reports is half the Hessian-weighted squared error.
  Activation ordering is undone consistently, and the zeros of a weight of which at least a twentieth is zero survive. The
  distributed protocol (reduce, compress, broadcast) is a state machine over
  any number of ranks whose collectives complete in any order; every run ends with all ranks holding what a single process
  computes from the pooled batches. Its work split, greedy bin packing, is within 2 - 1/m of the best assignment in any order
  and within 4/3 - 1/(3m) in the order it sorts the items into.
- **AWQ smoothing and the calibration forwards of mixture-of-experts layers**, which are meant to keep the computed function,
  and the two running means smoothing chooses its scales from. A running mean of activations is the mean of everything seen
  exactly when the first batch has a row that its loss mask keeps; otherwise it never is a number.
- **Reindexing of fused weights**, which conserves tensors and leaves no incomplete set in a file, so that validation passes.
  It loses tensors, namely those still carried over after the last file, unless every mapping's targets match equally many
  names of the checkpoint.
- **The range search under a moving average**, and **the documentation's navigation printer**: a reader of its output gets
  exactly the printed tree back, and replacing the navigation of a configuration cuts out exactly the array it is set to.

## How the model reads the source

- Tensors of floating-point numbers are exact reals, and products are written `Times(x, y)`. Integers are unbounded.
- `fake_quantize`, `calculate_qparams`, observers and the compression of a module are arbitrary functions. The Cholesky calls
  are a contract: the factor U is upper triangular with a non-zero diagonal and U H U^T is the identity, or the call fails.
- A traced graph is a sequence of nodes in trace order, which is an order they can be executed in (`FxGraph.Traced`): nodes
  are named apart, attribute reads and placeholders have no inputs, and the one output node has no users. A node's value is
  an arbitrary function of the values of its inputs and of the parameters of the module it calls or reads.
- A batch supplies every placeholder, and no node is named like one of its other keys (`Liveness.BatchOk`).
- What the modifiers do at the end of a calibration epoch is an arbitrary function of the subgraph's position, the model and
  the arguments each batch was calibrated with. That it changes only modules called in that subgraph, and in no other, is
  the hypothesis `SequentialPipeline.CompressesLocally` of the theorems that need it.
- In the distributed protocol all ranks hold the same modules in the same order, with the same parameters, and a module's
  quantized parameters have the names it already has; Hessians are not offloaded.
- The name patterns of fused weights are an arbitrary matching predicate; the natural sort order is an arbitrary total
  preorder, because distinct names can have equal sort keys.
- Where the source updates objects, arrays or dictionaries in place, the model does too: classes for the cache, the memo of
  offloaded tensors, the GPTQ modifier, the observer and the smoothed layers; arrays for weights, block errors, expert outputs
  and the packed items. Each such method is proved against a specification function, and the theorems are about that function.
- The documentation of `partition_graph` says that every subgraph returns a dictionary of named values. In the code the
  subgraph that holds the output node returns what the model returns, whatever else later partitions need from it; the model
  follows the code. The documentation of `quantize_weight` lists five results; the code returns the loss and a dictionary.
- Lemmas carry `{:induction false}`: their inductions are written out.

## Model

| member | source | states |
|---|---|---|
| TopologicalPartition.ReleaseUsers | src/llmcompressor/pipelines/sequential/helpers.py:305-310 | after counting down the users of a node, the remaining indegrees count pending inputs and the queue holds exactly the nodes that have none, in first-in first-out order |
| TopologicalPartition.DrainQueue | src/llmcompressor/pipelines/sequential/helpers.py:293-310 | the queue drains: every node but attribute reads is placed once, after its inputs, partitions end at targets, in the order of the queue |
| TopologicalPartition.Drained | src/llmcompressor/pipelines/sequential/helpers.py:293-310 | when the queue is empty no node of an acyclic graph is left over |
| TopologicalPartition.UserPartitions | src/llmcompressor/pipelines/sequential/helpers.py:316-321 | the scan finds the partition of every user |
| TopologicalPartition.PlaceAttributes | src/llmcompressor/pipelines/sequential/helpers.py:312-326 | every used attribute read goes ahead of the first partition that uses it; unused ones are left out; nothing else moves |
| TopologicalPartition.TopologicalPartition | src/llmcompressor/pipelines/sequential/helpers.py:263-326 | the result is a partition: each node but unused attribute reads once, inputs earlier, one partition more than targets, each target the last node of its own, attribute reads in their first use; nodes stand in first-in first-out order |
| QueueOrder.ExecutionAscends | src/llmcompressor/pipelines/sequential/helpers.py:283-310 | nodes leave the queue in the order of their keys, which are defined on the graph alone |
| QueueOrder.KeyIsGreatest | src/llmcompressor/pipelines/sequential/helpers.py:283-310 | no path from a source to a node is spelled by a greater sequence than the node's key |
| QueueOrder.KeyIsPath | src/llmcompressor/pipelines/sequential/helpers.py:283-310 | some path from a source to the node is spelled by its key |
| QueueOrder.DepthDecides | src/llmcompressor/pipelines/sequential/helpers.py:283-310 | nodes to which the longest path is shorter leave the queue first |
| QueueOrder.SourcesInOrder | src/llmcompressor/pipelines/sequential/helpers.py:293-295 | nodes that wait for nothing leave the queue in the order of the graph |
| Subgraphs.PartitionGraph | src/llmcompressor/pipelines/sequential/helpers.py:329-385 | every partition becomes a fresh subgraph with its nodes, outside inputs, returned names and argument names |
| Subgraphs.CopyNodes | src/llmcompressor/pipelines/sequential/helpers.py:347-361 | copying nodes in order finds every input in the node map |
| Subgraphs.ReturnedInOrder | src/llmcompressor/pipelines/sequential/helpers.py:363-370 | the returned values are those of exactly the nodes that other partitions use, in order |
| Subgraphs.TraceConsumedNames | src/llmcompressor/pipelines/sequential/helpers.py:388-404 | a name is consumed by a subgraph exactly when that is the last one to take it |
| IntermediatesCache.RoundTrip | src/llmcompressor/pipelines/cache.py:205-298 | onloading an offloaded value restores structure and contents, on the onload device if one was given |
| IntermediatesCache.OffloadHolds | src/llmcompressor/pipelines/cache.py:251-298 | every tensor of an offloaded value is held on the offload device, however deeply it is nested |
| IntermediatesCache.MovedIsSame | src/llmcompressor/pipelines/cache.py:205-233 | what comes back on a device has the structure and contents that were stored, with every tensor on that device |
| IntermediatesCache.IntermediatesCache.FromDataloader | src/llmcompressor/pipelines/cache.py:71-101 | every batch is offloaded to the offload device, which the cache keeps, and reads as its values on the model device |
| IntermediatesCache.IntermediatesCache.Fetch | src/llmcompressor/pipelines/cache.py:103-119 | the held values of the names asked for, and no others |
| IntermediatesCache.IntermediatesCache.Update | src/llmcompressor/pipelines/cache.py:121-130 | the batch holds its old contents overridden by the values; other batches are untouched |
| IntermediatesCache.IntermediatesCache.Delete | src/llmcompressor/pipelines/cache.py:132-146 | succeeds exactly when every name is held, and then removes exactly those names |
| IntermediatesCache.IntermediatesCache.Append | src/llmcompressor/pipelines/cache.py:148-157 | one more batch with the values, offloaded as an update would; the others are untouched |
| SharedOffload.SharedIsOffload | src/llmcompressor/pipelines/cache.py:251-298 | replacing every tensor by the memo's one copy of it stores what offloading tensor by tensor would |
| SharedOffload.SharedStays | src/llmcompressor/pipelines/cache.py:251-267 | what was offloaded is not affected by later growth of the memo |
| SharedOffload.SharedRoundTrip | src/llmcompressor/pipelines/cache.py:205-298 | however much is offloaded in between, onloading gives back structure and contents |
| SharedOffload.Offloader.OffloadValue | src/llmcompressor/pipelines/cache.py:235-298 | the memo keeps leading to copies of equal content, grows by one copy per tensor that moves for the first time, and all occurrences of a tensor share its copy |
| GraphExecution.PartIsExecutable | src/llmcompressor/pipelines/sequential/helpers.py:360-373 | the nodes of a partition can run in order |
| GraphExecution.Execute | src/llmcompressor/pipelines/sequential/helpers.py:59-74 | runs the nodes in order: the environment is that after every node of the body has run |
| GraphExecution.EnvAfterRight | src/llmcompressor/pipelines/sequential/helpers.py:59-74 | with the right arguments every node that has run has the value it has in the whole graph |
| GraphExecution.Forward | src/llmcompressor/pipelines/sequential/helpers.py:59-74 | returns what the nodes, run in order on the given arguments, leave to be returned, or misses an argument |
| GraphExecution.ForwardCorrect | src/llmcompressor/pipelines/sequential/helpers.py:59-74 | the forward function fails exactly when an argument is missing; with the right arguments it returns the named values, or the model's output, of whole-graph evaluation |
| Liveness.IndexFits | src/llmcompressor/pipelines/sequential/helpers.py:263-326 | every edge goes to the same or a later partition, and every used node has one |
| Liveness.InputNameOf | src/llmcompressor/pipelines/sequential/helpers.py:349-374 | a name is an argument of a subgraph exactly when the subgraph needs its node |
| Liveness.ReturnedLeaves | src/llmcompressor/pipelines/sequential/helpers.py:363-370 | a node is returned exactly when a later partition uses it |
| Liveness.KeptNext | src/llmcompressor/pipelines/sequential/pipeline.py:166-177 | what is live after a subgraph is what was live or is returned, without what is needed for the last time |
| Liveness.LiveAtStart | src/llmcompressor/pipelines/sequential/pipeline.py:124-126 | a cache filled from the data loader holds exactly what is live before the first subgraph |
| Liveness.FetchedAgree | src/llmcompressor/pipelines/cache.py:103-119 | fetching finds every argument name, with the value of its node |
| Liveness.LiveNext | src/llmcompressor/pipelines/sequential/pipeline.py:166-177 | exact liveness: update then delete moves the cache from exactly what is live before a subgraph to exactly what is live after it, and everything deleted is there |
| Liveness.LiveAfterCompression | src/llmcompressor/pipelines/sequential/pipeline.py:162-164 | compressing a subgraph keeps the values computed before it right |
| SequentialPipeline.CalibrationPass | src/llmcompressor/pipelines/sequential/pipeline.py:151-160 | fails exactly when some batch lacks an argument; on a live cache none does, and every batch is calibrated with the values of the current model |
| SequentialPipeline.PropagateBatch | src/llmcompressor/pipelines/sequential/pipeline.py:168-177 | runs, updates and deletes: the batch, and no other, becomes what the outcome makes of it; fails exactly when an argument or a consumed name is missing or the outcome has no items |
| SequentialPipeline.PropagateLive | src/llmcompressor/pipelines/sequential/pipeline.py:168-177 | a live batch is propagated without failing, returns the right values and is exactly live for the next subgraph |
| SequentialPipeline.PropagationPass | src/llmcompressor/pipelines/sequential/pipeline.py:166-177 | the same for all batches: it fails exactly when one does, and leaves every batch as propagating it alone would; a live cache stays live; a subgraph without the output node never returns the model's output |
| SequentialPipeline.Epoch | src/llmcompressor/pipelines/sequential/pipeline.py:142-177 | calibrate, compress, propagate: the next model is what the compressor makes of what was seen, and the cache is live under it |
| SequentialPipeline.OutputOnlyInLast | src/llmcompressor/pipelines/sequential/helpers.py:363-370 | with the output node in the last partition every other subgraph returns a dictionary |
| SequentialPipeline.RunSubgraphs | src/llmcompressor/pipelines/sequential/pipeline.py:142-177 | over all subgraphs: models follow the compressor, arguments seen and cache contents are right at every step, the last outputs are correct |
| SequentialPipeline.LastIsModelOutput | src/llmcompressor/pipelines/sequential/helpers.py:363-370 | the last subgraph returns the value of the output node |
| SequentialPipeline.Run | src/llmcompressor/pipelines/sequential/pipeline.py:85-177 | end to end: with local compression every batch ends with the final model's output if every target's key is before the output node's, and none does otherwise; every calibration pass saw the model with the earlier subgraphs compressed; the cache was exactly live before every subgraph |
| OutputPartition.OutputComesLast | src/llmcompressor/pipelines/sequential/helpers.py:293-310 | when every target reaches the output node, the output node is in the last partition |
| OutputPartition.OutputLastIff | src/llmcompressor/pipelines/sequential/helpers.py:293-310 | the output node is in the last partition exactly when, in the graph, every target's key is before its own |
| OutputPartition.OutputLastByDepth | src/llmcompressor/pipelines/sequential/helpers.py:293-310 | where depths differ they decide: smaller depths of all targets put the output node last, a larger depth of one does not |
| OutputPartition.ReachingComesBefore | src/llmcompressor/pipelines/sequential/helpers.py:293-310 | targets that reach the output node have keys before its own |
| OutputPartition.UnreachedTargetFails | src/llmcompressor/pipelines/sequential/helpers.py:293-310 | a graph that tracing can yield whose output node is not in the last partition of anything the partitioner returns |
| Prefetch.StepKeepsInv | src/llmcompressor/pipelines/sequential/pipeline.py:35-61 | every step of either thread keeps the state between the threads consistent with the loop without prefetching |
| Prefetch.ReadsFindTheirKey | src/llmcompressor/pipelines/cache.py:113-119 | the background thread never meets a key that the main thread deleted |
| Prefetch.PrefetchingIsSequential | src/llmcompressor/pipelines/sequential/pipeline.py:35-61 | for every interleaving a run that ends handed out the same batches and inputs, left the same cache and failed or not as the loop without prefetching |
| Prefetch.NoDeadlock | src/llmcompressor/pipelines/sequential/pipeline.py:50-61 | until the main thread ends some thread can take a step |
| Prefetch.RunsEnd | src/llmcompressor/pipelines/sequential/pipeline.py:50-61 | no run goes on forever |
| Prefetch.UpdateThenDelete | src/llmcompressor/pipelines/cache.py:121-146 | writing key by key, in any order, is what update and delete do at once |
| PrefetchedPass.PrefetchedCalibration | src/llmcompressor/pipelines/sequential/pipeline.py:45-61 | for every interleaving a prefetching calibration pass gives each batch the inputs that the pass without gives it, and fails exactly when that does |
| PrefetchedPass.PrefetchedPropagation | src/llmcompressor/pipelines/sequential/pipeline.py:45-61 | for every interleaving a prefetching second pass gives each batch the inputs, and leaves the cache, of the pass without, and fails exactly when that does |
| GptqHessian.AccumulateHessian | src/llmcompressor/modifiers/gptq/gptq_quantize.py:33-67 | adds twice the Gram matrix of the tokens, or of the patches of unfolded images, and counts the batch dimension |
| GptqHessian.GramIsSum | src/llmcompressor/modifiers/gptq/gptq_quantize.py:61-65 | what one call adds to entry (i, j) is twice the sum over its tokens of the product of features i and j |
| GptqHessian.BatchIsItsSequences | src/llmcompressor/modifiers/gptq/gptq_quantize.py:40-61 | a batch, and the images of a convolution input, add what their sequences add one by one, and count as many samples |
| GptqHessian.EntryAppend | src/llmcompressor/modifiers/gptq/gptq_quantize.py:61-67 | Hessians and counts of concatenated batch lists add up |
| GptqHessian.EntryOfRearranged | src/llmcompressor/modifiers/gptq/gptq_quantize.py:61-67 | the Hessian does not depend on the order of the batches |
| GptqColumns.QuantizeBlock | src/llmcompressor/modifiers/gptq/gptq_quantize.py:181-244 | every column of the block is quantized from its value after all earlier errors; errors and losses are those of the reference |
| GptqColumns.BlockError | src/llmcompressor/modifiers/gptq/gptq_quantize.py:250-250 | the block product is what the block's columns add to the spread of each later column |
| GptqColumns.PropagateBlock | src/llmcompressor/modifiers/gptq/gptq_quantize.py:247-254 | after the block is written back, later columns hold their values after all its errors |
| GptqColumns.QuantizeColumns | src/llmcompressor/modifiers/gptq/gptq_quantize.py:176-254 | block-size independence: for every block size, with or without the mask, the weight and the loss are those of the column-at-a-time reference |
| GptqReference.LazyEqualsEager | src/llmcompressor/modifiers/gptq/gptq_quantize.py:234-254 | the reference value of every entry is what updating all later columns after each column gives |
| GptqReference.MaskedEntryKept | src/llmcompressor/modifiers/gptq/gptq_quantize.py:142-149 | a masked entry reaches quantization with its initial value |
| GptqReference.FallbackIsRoundToNearest | src/llmcompressor/modifiers/gptq/gptq_quantize.py:167-174 | with the identity as factor every entry is quantized from its initial value |
| GptqObjective.DifferenceIsSpreadError | src/llmcompressor/modifiers/gptq/gptq_quantize.py:177-254 | without a mask the initial weight minus the quantized one is the error matrix times U |
| GptqObjective.LossIsObjective | src/llmcompressor/modifiers/gptq/gptq_quantize.py:158-279 | without a mask the loss is half the sum over rows of (w0 - q) H (w0 - q)^T |
| GptqWeight.ArgsortInverts | src/llmcompressor/modifiers/gptq/gptq_quantize.py:258-267 | sorting the positions of a permutation inverts it |
| GptqWeight.Invert | src/llmcompressor/modifiers/gptq/gptq_quantize.py:260-265 | argsort of the permutation is its inverse |
| GptqWeight.GroupMembers | src/llmcompressor/modifiers/gptq/gptq_quantize.py:113-140 | the parameters of a group were observed on exactly the columns that the returned index puts into it |
| GptqWeight.ColumnUsesItsGroup | src/llmcompressor/modifiers/gptq/gptq_quantize.py:209-273 | each returned entry was quantized with the parameters observed on its own group's columns, under every ordering |
| GptqWeight.ReadsItsParameters | src/llmcompressor/modifiers/gptq/gptq_quantize.py:282-290 | through the returned group index the returned table of scales and zero points gives every entry the parameters it was quantized with |
| GptqPreparation.LargeActivationsFirst | src/llmcompressor/modifiers/gptq/gptq_quantize.py:290-301 | with activation ordering of groups, columns are quantized by descending diagonal of the Hessian; otherwise where they stand |
| GptqPreparation.UngroupedParameters | src/llmcompressor/modifiers/gptq/gptq_quantize.py:138-207 | without groups the parameters are observed on the whole weight, or on the row of the entry |
| GptqPreparation.FlattenEntry | src/llmcompressor/modifiers/gptq/gptq_quantize.py:139-140 | the whole weight is observed row after row, each entry once |
| GptqPreparation.MaskIffSparse | src/llmcompressor/modifiers/gptq/gptq_quantize.py:142-149 | zeros are preserved exactly when at least a twentieth of the given weight is zero, whatever the ordering, and the mask is zero exactly where an entry is within 1e-8 of zero |
| GptqPreparation.ZerosSurvive | src/llmcompressor/modifiers/gptq/gptq_quantize.py:236-252 | every zero of such a weight is returned as what its own parameters make of zero |
| GptqPreparation.DampenedEntry | src/llmcompressor/modifiers/gptq/gptq_quantize.py:153-162 | what is factored is the reordered Hessian with ones for zeros on its diagonal, and percdamp times the mean of that diagonal added to it |
| GptqPreparation.ProblemOf | src/llmcompressor/modifiers/gptq/gptq_quantize.py:153-174 | dead columns start as zeros, and the factor is that of the dampened Hessian or, when it raises, the identity |
| GptqWeight.QuantizeWeight | src/llmcompressor/modifiers/gptq/gptq_quantize.py:70-287 | errors exactly for unsupported strategies and group sizes that do not divide; otherwise the loss is that of the column loop, each column returns to where it came from, and reading an entry back through the returned scales and group index finds what it was quantized with |
| GptqWeight.ReportedLossIsObjective | src/llmcompressor/modifiers/gptq/gptq_quantize.py:153-166 | the reported loss is the objective under the dampened Hessian of the permuted, dead-column-free weight |
| GptqModifier.GPTQModifier.CalibrateModule | src/llmcompressor/modifiers/gptq/base.py:235-269 | the stored Hessian and count are those of all batches the module saw |
| GptqModifier.GPTQModifier.CompressModuleList | src/llmcompressor/modifiers/gptq/base.py:299-322 | listed modules get what quantization makes of their Hessian and count, whose entries are popped |
| GptqModifier.GPTQModifier.CompressModules | src/llmcompressor/modifiers/gptq/base.py:271-278 | without distribution every calibrated module is compressed once and no entry is left |
| GptqModifier.GPTQModifier.OnFinalize | src/llmcompressor/modifiers/gptq/base.py:376-391 | fails exactly when some calibrated module was not compressed |
| GptqModifier.CompressAllAt | src/llmcompressor/modifiers/gptq/base.py:299-322 | compressing a list of modules treats each independently of the others |
| DistributedGptq.IssueReduceOk | src/llmcompressor/modifiers/gptq/base.py:324-348 | issuing a reduce keeps the rank's invariant; non-owners drop both entries after the second |
| DistributedGptq.CompleteReduceOk | src/llmcompressor/modifiers/gptq/base.py:324-349 | a completed reduce leaves the owner with the total over all ranks |
| DistributedGptq.CompressNextOk | src/llmcompressor/modifiers/gptq/base.py:299-322 | an owner compresses from the total Hessian and the total count |
| DistributedGptq.CompleteBroadcastOk | src/llmcompressor/modifiers/gptq/base.py:351-366 | a completed broadcast leaves the receiver with the owner's compressed attribute |
| DistributedGptq.StepKeepsInv | src/llmcompressor/modifiers/gptq/base.py:280-366 | every step of every rank keeps the invariant |
| DistributedGptqRuns.CollectivesMatch | src/llmcompressor/modifiers/gptq/base.py:324-366 | all ranks issue the same collectives in the same order |
| DistributedGptqRuns.CompressedByOwner | src/llmcompressor/modifiers/gptq/base.py:284-294 | a module is compressed on its owner only, and at most once, at every step of every run |
| DistributedGptqRuns.CompressedOnce | src/llmcompressor/modifiers/gptq/base.py:284-297 | a rank that has finished has compressed each module it owns exactly once, and no other |
| DistributedGptqRuns.FinishedRun | src/llmcompressor/modifiers/gptq/base.py:280-297 | a finished run leaves all ranks with identical final parameters and empty dictionaries |
| DistributedGptqRuns.NoDeadlock | src/llmcompressor/utils/dist.py:41-54 | until all ranks have finished some rank can take a step, in every order of completions |
| DistributedGptqRuns.RunIsBounded | src/llmcompressor/modifiers/gptq/base.py:280-297 | no run has more steps than a measure of its first state |
| DistributedGptqRuns.TotalsArePooled | src/llmcompressor/modifiers/gptq/base.py:331-345 | the reduced sums are the Hessian and count of the pooled batches |
| DistributedGptqRuns.SingleProcessAgrees | src/llmcompressor/modifiers/gptq/base.py:271-297 | the distributed result is the one a single process computes from the pooled batches in any order |
| DistributedGptqRuns.PackingIsPlan | src/llmcompressor/modifiers/gptq/base.py:284-289 | what bin packing returns is a plan the protocol can run on |
| BinPacking.SortDescendingSorts | src/llmcompressor/utils/dist.py:29-29 | the sort is a rearrangement by descending weight |
| BinPacking.SortIsStable | src/llmcompressor/utils/dist.py:29-29 | items of equal weight stay in the order they had |
| BinPacking.StableOrderIsUnique | src/llmcompressor/utils/dist.py:29-29 | only one order is descending and keeps items of equal weight as they were |
| BinPacking.GreedyBinPacking | src/llmcompressor/utils/dist.py:8-38 | items are sorted in place, which by the rows above fixes their order; bins and the item-to-bin map are those of the greedy assignment of that order |
| BinPacking.BinsPartitionItems | src/llmcompressor/utils/dist.py:33-37 | every distinct item is in the one bin the map names, once, and in no other |
| BinPacking.BinInListOrder | src/llmcompressor/utils/dist.py:33-35 | a bin lists exactly the items that were assigned to it, in the order of the list |
| BinPacking.LastOccurrenceIsRecorded | src/llmcompressor/utils/dist.py:36-36 | an item listed more than once is recorded under the bin of its last occurrence |
| BinPacking.EqualWeightsRoundRobin | src/llmcompressor/utils/dist.py:11-37 | items of one positive weight keep their order, and item i goes to bin i modulo the number of bins |
| BinPacking.LoadIsWeightOfItems | src/llmcompressor/utils/dist.py:35-37 | a bin's load is the weight of its items |
| BinPacking.LoadsAddUp | src/llmcompressor/utils/dist.py:33-37 | the loads add up to the total weight |
| BinPacking.GreedyIsListScheduled | src/llmcompressor/utils/dist.py:34-34 | every item went to the first of the bins that were lightest at its turn |
| BinPacking.ListSchedulingBound | src/llmcompressor/utils/dist.py:33-37 | a bin's load is at most total/m plus (1 - 1/m) times its last item |
| BinPacking.TwoApproximation | src/llmcompressor/utils/dist.py:33-37 | in any order, every load is within 2 - 1/m of what any assignment meets |
| BinPacking.FourThirdsApproximation | src/llmcompressor/utils/dist.py:29-37 | in descending order, every load is within 4/3 - 1/(3m) of what any assignment meets |
| BinPacking.PackingWithinFourThirds | src/llmcompressor/utils/dist.py:8-38 | the returned packing meets that bound against any assignment of the items |
| AwqSmoothing.NormSmoothed | src/llmcompressor/modifiers/awq/base.py:573-579 | dividing a normalization's weight and bias divides its output |
| AwqSmoothing.LinearSmoothed | src/llmcompressor/modifiers/awq/base.py:580-596 | dividing a linear layer's rows and bias divides its output |
| AwqSmoothing.FusedSmoothed | src/llmcompressor/modifiers/awq/base.py:580-596 | of a layer with more rows than scales the last outputs are divided and the others are as before; it cannot have a bias |
| AwqSmoothing.LinearBalanced | src/llmcompressor/modifiers/awq/base.py:565-572 | multiplying the columns of a layer undoes the division of its input |
| AwqSmoothing.NormMappingKeepsBlock | src/llmcompressor/modifiers/awq/base.py:598-600 | smoothing normalization into gate and up keeps the block's function, for every input, activation and positive scales |
| AwqSmoothing.UpMappingKeepsBlock | src/llmcompressor/modifiers/awq/base.py:598-600 | smoothing up into down keeps the block's function |
| AwqSmoothing.BestNext | src/llmcompressor/modifiers/awq/base.py:759-762 | keeping a candidate of strictly smaller loss keeps the first of the least |
| AwqSmoothing.TrialEntry | src/llmcompressor/modifiers/awq/base.py:707-737 | while scales are tried, each balance weight is its saved one with columns multiplied, quantized, and columns divided again, and its bias is kept |
| AwqSmoothing.Model.ComputeBestScale | src/llmcompressor/modifiers/awq/base.py:619-799 | returns the first candidate of least finite loss, none when there is none, and leaves exactly the last candidate's weights behind |
| AwqSmoothing.Model.SmoothMapping | src/llmcompressor/modifiers/awq/base.py:551-600 | fails exactly when no proposed scales have a finite loss on trial; otherwise the first of least loss are applied: balance weights are the old ones with columns multiplied, the smooth layer is the old one divided, nothing else changes, and the block computes what it did |
| AwqSmoothing.Model.ApplySmoothing | src/llmcompressor/modifiers/awq/base.py:501-606 | any sequence of the two mappings, some left out, smooths each of the others with the first of its best scales and keeps the block's function; it fails exactly at the first mapping, not left out, for which no loss is finite |
| ChunkLayout.EntryToChunk | src/llmcompressor/modifiers/awq/base.py:936-944 | row r and column c go to chunk (r/bh) nW + c/bw at offset (r%bh) bw + c%bw, both in range, and come back from there |
| ChunkLayout.ChunkToEntry | src/llmcompressor/modifiers/awq/base.py:936-944 | every offset of every chunk comes from exactly one entry: the block layout is a bijection |
| ChunkLayout.TransposedBack | src/llmcompressor/modifiers/awq/base.py:951-953 | transposing the two middle dimensions again undoes it |
| ChunkLayout.LayoutHasEntry | src/llmcompressor/modifiers/awq/base.py:928-947 | splitting the two dimensions and transposing, as the code does, puts each entry in its place |
| ChunkLayout.RestoredLayout | src/llmcompressor/modifiers/awq/base.py:951-956 | undoing the layout gives the weight back, for every strategy |
| ChunkLayout.ChunksAreTogether | src/llmcompressor/modifiers/awq/base.py:928-947 | two entries are in one chunk exactly when they are quantized together: same tensor, row, group or block |
| ChunkLayout.GroupsStayInRows | src/llmcompressor/modifiers/awq/base.py:934-935 | groups lie within rows when the group size divides the columns |
| ChunkLayout.ObserverAgrees | src/llmcompressor/observers/helpers.py:58-98 | observers lay a weight out like the means do exactly when its shape is divisible; otherwise one of them raises or pads |
| LayerMeans.NormalisedEntry | src/llmcompressor/modifiers/awq/base.py:946-956 | every normalised entry is its magnitude over the largest magnitude of those quantized together with it plus 1e-6, in rows and columns again |
| LayerMeans.ColumnSumIsSum | src/llmcompressor/modifiers/awq/base.py:958-962 | the total of a channel is the sum of its entries over the rows |
| LayerMeans.ComputeLayerMeans | src/llmcompressor/modifiers/awq/base.py:896-962 | the running totals give the mean over all normalised rows of all layers that count; it raises exactly when a layer cannot be laid out or none counts |
| LayerMeans.NextMean | src/llmcompressor/modifiers/awq/base.py:1027-1042 | if the running mean is that of all rows so far, so it is after one more batch; it is a number exactly when the first batch has a row |
| LayerMeans.KeptWhereTrue | src/llmcompressor/modifiers/awq/base.py:453-460 | a loss mask keeps, in order, exactly the rows where it is true |
| LayerMeans.ActivationMeans.CacheActivations | src/llmcompressor/modifiers/awq/base.py:437-466 | every smooth layer's mean stays that of all rows its loss masks kept, over any calls of the hook; other layers' means are untouched |
| MoeDispatch.TokensThenChoices | src/llmcompressor/modeling/deepseek_v3.py:42-45 | every choice of an expert is listed once, its tokens in order |
| MoeDispatch.ChoicesThenTokens | src/llmcompressor/modeling/qwen3_moe.py:74-79 | with the transposed mask the tokens that chose the expert first come first |
| MoeDispatch.AddRouted | src/llmcompressor/modeling/deepseek_v3.py:52-57 | adding one expert's weighted rows moves the output from the choices of earlier experts to those including this one |
| MoeDispatch.AmongChoices | src/llmcompressor/modeling/deepseek_v3.py:38-46 | the choices regroup by expert |
| MoeDispatch.MixtureIsUnique | src/llmcompressor/modeling/deepseek_v3.py:48-66 | there is one such output, so calibrating all experts does not change it |
| MoeDispatch.DeepseekV3Forward | src/llmcompressor/modeling/deepseek_v3.py:31-70 | in either mode every token gets the sum over its choices of weight times expert output, plus the shared experts; with all experts calibrated each saw every token |
| MoeDispatch.Glm4MoeForward | src/llmcompressor/modeling/glm4_moe.py:34-84 | the same for the other branching |
| MoeDispatch.Qwen3MoeForward | src/llmcompressor/modeling/qwen3_moe.py:49-99 | the same for the transposed mask; fails exactly when there are experts and one choice per token |
| FusedNames.NaturalSortSorts | src/llmcompressor/entrypoints/model_free/helpers.py:58-62 | the sort is a sorted rearrangement |
| FusedNames.NaturalSortIsStable | src/llmcompressor/entrypoints/model_free/helpers.py:58-62 | names with equal keys stay in the order they had |
| FusedNames.StableOrderIsUnique | src/llmcompressor/entrypoints/model_free/helpers.py:58-62 | only one order is sorted and keeps names with equal keys as they were |
| FusedNames.SortWithout | src/llmcompressor/entrypoints/model_free/helpers.py:58-62 | the stable sort commutes with leaving names out |
| FusedNames.MatchNamesSetEager | src/llmcompressor/entrypoints/model_free/helpers.py:50-87 | the loops compute the greedy matching |
| FusedNames.MatchesInTurn | src/llmcompressor/entrypoints/model_free/helpers.py:64-82 | matching succeeds exactly when each name only matches targets that no other is behind; the i-th set holds for each target the i-th name that matches it |
| FusedNames.RerunWithoutLeft | src/llmcompressor/entrypoints/model_free/helpers.py:64-82 | without the incomplete set's names matching finds the same complete sets and nothing incomplete |
| FusedNames.GetFusedNames | src/llmcompressor/entrypoints/model_free/microscale.py:31-44 | complete and incomplete sets of all mappings, or the first error |
| FusedNames.RerunFused | src/llmcompressor/entrypoints/model_free/microscale.py:31-44 | for mappings that share no names, the same for all mappings at once |
| FusedNames.UnmatchedShareNothing | src/llmcompressor/entrypoints/model_free/microscale.py:31-44 | for such mappings no name is in two incomplete sets |
| ReindexFusedWeights.MoveUnmatched | src/llmcompressor/entrypoints/model_free/reindex_fused_weights.py:105-115 | takes the names of the incomplete sets out of the file, once; fails exactly when two sets share a name |
| ReindexFusedWeights.StillConserved | src/llmcompressor/entrypoints/model_free/reindex_fused_weights.py:92-119 | at every file, saved and carried-over tensors are disjoint and together are those loaded |
| ReindexFusedWeights.TakenIsUnbalanced | src/llmcompressor/entrypoints/model_free/reindex_fused_weights.py:105-115 | what is carried over, unless it is nothing, matches one target of some mapping more often than another |
| ReindexFusedWeights.KeptIffBalanced | src/llmcompressor/entrypoints/model_free/reindex_fused_weights.py:92-121 | all tensors are kept exactly when every mapping's targets match equally many of the checkpoint's names |
| ReindexFusedWeights.FusedIffOnTurn | src/llmcompressor/entrypoints/model_free/reindex_fused_weights.py:103-103 | matching a file succeeds exactly when every name only matches targets that no other target of its mapping is behind |
| ReindexFusedWeights.ReindexFusedWeights | src/llmcompressor/entrypoints/model_free/reindex_fused_weights.py:79-121 | conservation with the weight map of what was saved; for mappings that share no names no saved file has an incomplete set, all tensors are kept exactly when every mapping's targets match equally many of the checkpoint's names, and it fails exactly when some file, with what was carried over to it, has a name whose target another target is behind |
| ReindexFusedWeights.IncompleteLastSetIsLost | src/llmcompressor/entrypoints/model_free/reindex_fused_weights.py:81-121 | a checkpoint on which reindexing does not fail and loses a tensor |
| ReindexFusedWeights.InvertMapping | src/llmcompressor/entrypoints/model_free/helpers.py:90-98 | each file's names in the order of the mapping |
| ReindexFusedWeights.ValidateIndex | src/llmcompressor/entrypoints/model_free/validate.py:60-78 | accepts exactly when no file of the index has an incomplete set |
| ReindexFusedWeights.ReindexedIsValid | src/llmcompressor/entrypoints/model_free/validate.py:60-78 | the index that reindexing writes is accepted |
| RangeSearch.Step | src/llmcompressor/observers/mse.py:223-234 | the channels whose error falls below their least take the shrunk range, and improvement is reported exactly when one does |
| RangeSearch.FactorSteps | src/llmcompressor/observers/mse.py:192-195 | the search starts from the whole range and takes one part in grid of it away at every step |
| RangeSearch.GridSearch | src/llmcompressor/observers/mse.py:150-236 | each channel gets the first of the least errors among the steps before the first long enough run without improvement, and ranges are not inverted |
| RangeSearch.WeightOf | src/llmcompressor/observers/moving_base.py:63-70 | an observation weighs the averaging constant, and the first one, times one minus the constant for every observation after it |
| RangeSearch.WeightsAreConvex | src/llmcompressor/observers/moving_base.py:100-104 | the weights of the observations are non-negative and add up to one |
| RangeSearch.MovingAverageObserver.GetMinMax | src/llmcompressor/observers/moving_base.py:53-72 | the running range is that convex combination of the ranges found, with minimum at most maximum |
| NavToml.EscapeFirst | docs/scripts/zensical_gen_files.py:336-337 | escaping backslashes and then quotes works character by character |
| NavToml.SkipsEscaped | docs/scripts/zensical_gen_files.py:386-392 | an escaped string ends at its own closing quote and no earlier |
| NavToml.NeutralLines | docs/scripts/zensical_gen_files.py:340-361 | what is printed for any tree leaves the scanner's depth as it was |
| NavToml.BlockCloses | docs/scripts/zensical_gen_files.py:373-396 | from the bracket that opens a printed block the scanner stops right after the one that closes it |
| NavReader.ReadsChars | docs/scripts/zensical_gen_files.py:336-337 | unescaping a printed string gives it back |
| NavReader.ReadsItems | docs/scripts/zensical_gen_files.py:340-361 | reading what is printed for any tree, at any indentation, gives exactly that tree back: titles, paths, nesting and order |
| NavReader.ReadsBlock | docs/scripts/zensical_gen_files.py:418-420 | reading a printed block gives the navigation and the text after it |
| NavReader.ReplacedReadsBack | docs/scripts/zensical_gen_files.py:364-396 | in a configuration whose navigation was replaced, the new navigation is read |
| NavScanner.ArrayCloses | docs/scripts/zensical_gen_files.py:373-396 | from its opening bracket the scanner stops right after the bracket that closes the array, whatever comments, strings and arrays stand in it |
| NavScanner.MatchHasHead | docs/scripts/zensical_gen_files.py:366-366 | a match is nav, blanks, an equals sign, blanks and a bracket |
| NavScanner.HeadMatches | docs/scripts/zensical_gen_files.py:366-366 | wherever these stand there is a match, up to that bracket |
| NavScanner.ReplaceCuts | docs/scripts/zensical_gen_files.py:364-396 | exactly the first array that nav is set to is replaced; the text before it and after it is kept |
| NavScanner.NothingToReplace | docs/scripts/zensical_gen_files.py:366-368 | the match is missing exactly when no line starts with nav = [ |
| NavToml.ReplaceNavBlock | docs/scripts/zensical_gen_files.py:364-396 | the loops cut from the first match to the closing bracket, or report which of the two is missing |
| NavToml.ReplaceTwice | docs/scripts/zensical_gen_files.py:364-396 | replacing a printed block by another gives what replacing the original block by that would have given, for every configuration |

## Left out

- Tracing, autowrapping, code generation and the renumbering of nodes inside a subgraph: the model starts from a traced graph and keeps its node numbers.
- Device dispatch, offloading contexts and streams: devices appear only as the tags of tensors in the cache.
- Floating-point rounding, not-a-number, infinities and dtype casts, except that a loss of the smoothing search can be not finite.
- The dataclass arm of the cache: onloading overwrites the cached object in place, so a second fetch is not the simple round trip. `size` and iteration are left out too.
- Garbage collection of the weak dictionary of offloaded tensors: entries stay.
- Loss masks other than in the means of activations, session state, logging, lifecycle flags and events.
- `offload_hessians=True` in the distributed path, where the order of copies depends on streams.
- Unfolding images into patches and reshaping or transposing convolution weights in GPTQ: weights are matrices and inputs are rows of features.
- GptqModifier.GPTQModifier.CalibrateModule: works on Hessian matrices as values, so it does not show the in-place addition to a tensor that others may alias.
- GptqHessian.AccumulateHessian: returns the sum as a value for the same reason.
- The token-masked loss and the formulas for candidate scales of smoothing: candidates are arbitrary positive scales, and every balance layer has a quantization scheme.
- AwqSmoothing.Model.ApplySmoothing: states the preserved function for the normalization to gate/up and up to down mappings of a feed-forward block; what smoothing a fused layer does to a whole block is not stated.
- Strategies that cannot be applied to weights, the observers' reordering of grouped columns by a group index, and layouts of activations and attention states.
- LayerMeans.ComputeLayerMeans: the weights that count have equally many columns, as layers that read the same activations do.
- Gates, softmax, top-k and the normalization of routing weights: the chosen experts and weights are inputs of the forwards.
- `calculate_qparams` and `fake_quantize` inside the range search: the error of a step is an arbitrary function of step and channel.
- File reading and writing, JSON, thread pools of writers and checkpoint files without an index.
- ReindexFusedWeights.ReindexFusedWeights: the checkpoint's files list distinct tensors, as its index does, and the lexicographic order of names is an arbitrary listing of the keys.
- Building the navigation tree from the configuration file, and entries that are neither strings nor lists; a dictionary with several entries is several consecutive items.
- Model-free compression, observers other than the range search, sparsity modifiers, datasets, entrypoints and metrics.
