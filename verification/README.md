# DirectML execution provider: a verified model

This project models the stateful logic of the DirectML execution provider and proves what that logic is there for. The GPU,
the driver and the runtime appear only as steps that may happen at any time or as answers that may be anything.

| modules | what they model |
|---|---|
| `UploadRing`, `UploadHeap`, `UploadSafety` | the pooled upload heap: placement in a ring, chunk selection, reclaiming by fence, trimming; and the heap, the context, the recorder and the GPU running together |
| `CommandStream`, `ExecutionContext` | the command queue, the recorder and the execution context, once as a value with one function per operation and once as classes that update their fields and are tied to those functions |
| `Partition`, `PartitionTheorems` | the Tier-0 partition builder, and why fusing its groups leaves the graph acyclic |
| `CpuPlacement` | the priority worklist that keeps nodes on the CPU |
| `ShapeReference`, `ShapeResolution` | the fixpoint that resolves Upsample and Resize shapes, against a recursive evaluation |
| `FusionMatching`, `FusionPass`, `TierClaims` | the recursive pattern matcher, the greedy fusion pass, and the claiming of nodes in three tiers |
| `AbiKernelCache`, `BiasGeluCache` | two kernel caches: lazy creation with snapshots, and double-checked initialisation under threads |
| `BucketAllocator` | the power-of-two buffer pool |
| `CopyBatch`, `CopyTrace`, `CopyLimits` | batched tensor copies and readbacks, where each byte comes from, and where batching stops being sequential |
| `Strides` | packed and broadcast strides |

Code that updates objects in place is modelled by classes whose methods do the same; their contracts name the function of
the old state that gives the new state, and the properties are lemmas about those functions and about runs of them.

## Where the code does something unexpected

Each of these is shown by a lemma about a concrete input or run, and another one says exactly when it happens.

- After an upload of zero bytes, which `UploadToResource` passes on, the ring's wrap test can misread the ring, and a later
  upload lands on live bytes (`UploadRing.ZeroByteEntryBreaksRing`; exactly when: `UploadRing.FindOffsetCorrectIff`).
- A request above the chunk limit gets a region that does not fit its chunk (`UploadHeap.OversizedRequest`; exactly when:
  `UploadHeap.ReserveInBoundsIff`).
- Two nodes without any common value are put into one Tier-0 group if one leaves an optional output unnamed and the other an
  optional input (`PartitionTheorems.UnnamedOutputJoinsStrangers`; exactly when a group stays connected:
  `PartitionTheorems.GroupsAreWeaklyConnectedIff`). Acyclicity and convexity hold regardless.
- A fused pattern is not convex when a matched node with an outside reader stays out between two fused ones. BiasGelu does
  this if the quotient is also a graph output (`FusionPass.BiasGeluStopsBeingConvex`; exactly when: `FusionPass.DetourIff`).
- Freeing an unpooled buffer at most three bytes short of a bucket size indexes a bucket that may not exist
  (`BucketAllocator.FirstFreeWithoutBucket`; exactly when: `BucketAllocator.FreeIsSafeIff`).
- A constant that moves to GPU memory goes unnoticed (`AbiKernelCache.ValidityMismatchGoesUnnoticed`; exactly when a kernel is
  not the call's own: `AbiKernelCache.ComputeIsFreshIff`).
- The bias of BiasGelu is read out of range unless it has one element or at least as many as the last dimension
  (`Strides.TwoBiasesForThree`; exactly when: `Strides.BiasReadsInRangeIff`).
- The heap for a readback batch of 4 GiB or more is sized for the sum modulo 2^32, and tensors are copied past its end
  (`CopyLimits.FiveGigabytesOverrun`; exactly when: `CopyLimits.HeapSufficesIff`). From the initial capacity a batch of
  between 2 and 4 GiB asks for a heap of 2^32 bytes (`CopyLimits.AboveTwoGigabytes`).
- `CopyTensors` reads back after later copies, which may have overwritten the source (`CopyLimits.LaterCopyIsReadBack`;
  exactly when: `CopyLimits.DeferredIsSequentialIff`).

Two comments in the code deserve a remark. `Close` says that unflushed work is discarded. That is so, over every later use,
for the contexts the program creates (`CommandStream.ClosedWorkIsNeverSubmitted`); one that is kept open would still submit
it (`CommandStream.KeptOpenStillSubmits`), but no caller asks for that. And `DmlAbiKernel_Create` announces snapshots of the
constants of an eager kernel, which have been moved away by then. Nothing is lost: such a kernel is created only when the
graph fixes shapes and constants, so every call asks for just this kernel (`AbiKernelCache.EagerCallsAreFresh`).

## Model

| member | source | states |
|---|---|---|
| UploadRing.AlignIsLeast | src/directml/dml_pooled_upload_heap.cc:14-17 | the mask expression gives the least multiple of the alignment at or after the offset |
| UploadRing.RingDisjoint | src/directml/dml_pooled_upload_heap.cc:33-89 | live allocations of a chunk never overlap |
| UploadRing.WrapTest | src/directml/dml_pooled_upload_heap.cc:46-72 | the first offset is not above the last one exactly if all allocations form one run, or the last is empty where the first begins and not all are like that |
| UploadRing.SearchDoesNotOverflow | src/directml/dml_pooled_upload_heap.cc:36-44 | within the chunk limit no sum wraps around, so the overflow branch is never taken |
| UploadRing.FindOffsetCorrectIff | src/directml/dml_pooled_upload_heap.cc:19-89 | for every chunk and size, zero included, the search finds a place exactly if there is one, and then a right one, except for a nonempty request in a misread ring that has room behind or in front of its first allocation |
| UploadRing.FindOffsetCorrect | src/directml/dml_pooled_upload_heap.cc:19-89 | in a chunk without empty allocations this never happens, for any size |
| UploadRing.PopKeepsLayout | src/directml/dml_pooled_upload_heap.cc:142-145 | dropping allocations from the front keeps the layout, wrapped or not, empty allocations included |
| UploadRing.ZeroByteEntryBreaksRing | src/directml/dml_pooled_upload_heap.cc:19-89 | a run of the search, each offset being its own answer and the pop that of reclaiming, after which it hands out a live allocation's bytes |
| UploadRing.ReclaimIsExact | src/directml/dml_pooled_upload_heap.cc:133-147 | with sorted fences, popping from the front removes the signaled allocations and no others, and the rest stays sorted |
| UploadRing.ReclaimMissesUnsorted | src/directml/dml_pooled_upload_heap.cc:139-145 | without the order a signaled allocation can stay behind |
| UploadHeap.ReserveKeepsHeap | src/directml/dml_pooled_upload_heap.cc:109-131 | a reservation within the chunk limit, of zero bytes too, leaves all chunks and bytes as they are, adds at most one empty chunk, and names a region that fits the layout of its chunk, unless its place is in a misread chunk |
| UploadHeap.ReserveInBoundsIff | src/directml/dml_pooled_upload_heap.cc:122-130 | the reserved region is inside its chunk if and only if the request is within the chunk limit |
| UploadHeap.ReservePlaceableIff | src/directml/dml_pooled_upload_heap.cc:109-131 | the region fits the layout of its chunk if and only if the request is within the chunk limit and, if not empty, not placed in a misread chunk |
| UploadHeap.OversizedRequest | src/directml/dml_pooled_upload_heap.cc:122-130 | one byte above the limit gets the beginning of a chunk of the limit's size |
| UploadHeap.NewChunkDoubles | src/directml/dml_pooled_upload_heap.cc:122-130 | when no chunk has room, the new one at least doubles the pool and holds the request, or has the size of the limit; the pool always grows |
| UploadHeap.StagingStaysReadable | src/directml/dml_pooled_upload_heap.cc:168-178 | the commands of an upload never change the state of the buffer that they copy from |
| UploadHeap.UploadKeepsHeap | src/directml/dml_pooled_upload_heap.cc:149-184 | reclaiming, reserving, filling and entering an upload that can be placed keep every layout, the fence order, the capacities and the buffer identities |
| UploadHeap.TrimKeepsHeap | src/directml/dml_pooled_upload_heap.cc:186-202 | trimming keeps all of that as well |
| UploadHeap.PooledUploadHeap.ReclaimAllocations | src/directml/dml_pooled_upload_heap.cc:133-147 | the loops in place take from the front of every chunk the entries whose fence is signaled, and stop at the first one that is not |
| UploadHeap.PooledUploadHeap.ReserveRegion | src/directml/dml_pooled_upload_heap.cc:109-131 | the first chunk with room, else a new one of the specified size, with the total capacity updated |
| UploadHeap.PooledUploadHeap.BeginUploadToGpu | src/directml/dml_pooled_upload_heap.cc:149-184 | the bytes are in the reserved region, the copy out of exactly that region has been recorded, and the entry carries the fence that completes it |
| UploadHeap.PooledUploadHeap.Trim | src/directml/dml_pooled_upload_heap.cc:186-202 | signaled entries are taken away and exactly the chunks that are empty then are released; each that stays begins with an entry that is not signaled |
| UploadSafety.NextInv | src/directml/dml_pooled_upload_heap.cc:133-202 | every step of the whole system (placeable upload, any command, flush, external list, trim, GPU progress) keeps all bytes that unexecuted copies need in a live allocation |
| UploadSafety.GpuReadsWhatWasUploaded | src/directml/dml_pooled_upload_heap.cc:149-184 | over every run whose uploads, empty ones included, can be placed when they come, what the GPU copies out of staging memory is, in order, what was passed to the uploads: these bytes, to this buffer and offset, and all of it once everything has run |
| UploadSafety.PlainRunsAreLegal | src/directml/dml_pooled_upload_heap.cc:149-184 | over every run of nonempty uploads within the chunk limit all uploads can be placed when they come |
| UploadSafety.TrimReleasesNothingInUse | src/directml/dml_pooled_upload_heap.cc:186-202 | after a trim every unexecuted copy still finds its bytes |
| UploadSafety.StageKeepsHeld | src/directml/dml_pooled_upload_heap.cc:162-166 | writing a new upload leaves the bytes of all live allocations alone |
| CommandStream.StepInv | src/directml/dml_execution_context.cc:113-158 | every operation keeps the invariant, issues exactly its own commands, and never takes a command out of a fence's cover |
| CommandStream.NothingLostOrReordered | src/directml/dml_execution_context.cc:113-151 | over every run the submitted lists followed by the open list are the issued commands in order, each once, and without a current recorder nothing is unsubmitted |
| CommandStream.SignaledMeansExecuted | src/directml/DmlExecutionProvider/CommandQueue.cc:24-30 | once a fence value is signaled, everything it covers has run |
| CommandStream.ReferencesReleasedSafely | src/directml/DmlExecutionProvider/CommandQueue.cc:84-91 | releasing drops references from the front while their fence is signaled and no others; all commands they protect have run |
| CommandStream.FlushSubmitsAndReleases | src/directml/dml_execution_context.cc:126-151 | a flush with recorded work submits just that, opens an empty list, and keeps exactly the references behind the first one that is not signaled yet; without work it does nothing |
| CommandStream.CompletionFenceIsTight | src/directml/dml_execution_context.cc:173-184 | the completion event covers everything issued and lies beyond the submissions exactly if work is recorded; no earlier fence covers the latest submission |
| CommandStream.RecordedWorkFence | src/directml/dml_execution_context.cc:176-181 | work recorded now is completed by the next submission's fence |
| CommandStream.ExternalFenceCoversList | src/directml/dml_plugin_command_recorder.cc:262-303 | both branches return the fence of the submission that ends with the external list; the one before does not cover it |
| CommandStream.RecordWithTemporaryInv | src/directml/dml_plugin_command_recorder.cc:143-181 | a temporary that is freed before the dispatch that uses it is recorded still outlives that dispatch |
| CommandStream.CloseIsSafeIff | src/directml/DmlExecutionProvider/CommandQueue.cc:73-82 | once a reference has been queued, everything the references protect has run when they are dropped, exactly if nothing is pending |
| CommandStream.CloseAfterTemporaryIff | src/directml/dml_execution_context.cc:160-171 | with a temporary of a dispatch just recorded, exactly if nothing is recorded |
| CommandStream.ClosedWorkIsNeverSubmitted | src/directml/dml_execution_context.cc:160-171 | however a closed context is used, what was pending is never submitted: submissions and the open list hold later commands only |
| CommandStream.KeptOpenStillSubmits | src/directml/dml_execution_context.cc:160-171 | a context that is kept open submits all that was issued, pending work included, with the next flush |
| ExecutionContext.CopyRestoresStatesIff | src/directml/dml_execution_context.cc:27-56 | at a copy both buffers are in a copy state and afterwards back in their own, exactly if they are two buffers or the one needs no barrier |
| ExecutionContext.CommandQueue.QueueReference | src/directml/DmlExecutionProvider/CommandQueue.cc:50-71 | the reference waits for the last submission, or for the next one; while closing it is not taken |
| ExecutionContext.CommandQueue.ReleaseCompletedReferences | src/directml/DmlExecutionProvider/CommandQueue.cc:84-91 | the loop drops the longest completed prefix |
| ExecutionContext.CommandQueue.Close | src/directml/DmlExecutionProvider/CommandQueue.cc:73-82 | all submissions have run before the references are dropped, and none is left, whatever released objects try to queue |
| ExecutionContext.CommandRecorder.CloseAndExecute | src/directml/dml_plugin_command_recorder.cc:352-398 | one submission with the recorded list, if it holds work, and the external one, if given; none otherwise |
| ExecutionContext.CommandRecorder.ExecuteCommandList | src/directml/dml_plugin_command_recorder.cc:262-303 | one submission, the open list before the external one, and its fence value; a new list is open |
| ExecutionContext.ExecutionContext.SetCommandRecorder | src/directml/dml_execution_context.cc:113-124 | terminates through the mutual recursion and opens a list exactly when the recorder changes |
| ExecutionContext.ExecutionContext.Flush | src/directml/dml_execution_context.cc:126-151 | terminates; if the open list holds work it is submitted, a fresh list is open, and no reference is left in front whose fence is signaled; otherwise nothing happens |
| ExecutionContext.ExecutionContext.CopyBufferRegion | src/directml/dml_execution_context.cc:27-56 | records the copy inside its barriers |
| ExecutionContext.ExecutionContext.ExecuteOperator | src/directml/dml_plugin_command_recorder.cc:107-193 | records the dispatch and its barrier, after queueing the temporary if that is not pooled |
| ExecutionContext.ExecutionContext.ExecuteCommandList | src/directml/dml_plugin_command_recorder.cc:262-303 | the context's stream gains the external list, and the returned value is its fence |
| ExecutionContext.ExecutionContext.QueueReference | src/directml/dml_execution_context.cc:153-158 | the reference covers everything issued so far |
| ExecutionContext.ExecutionContext.Close | src/directml/dml_execution_context.cc:160-171 | all references are dropped after the submissions have run; the context closes unless it stays open |
| Partition.FinalizeUpstream | src/directml/dml_ep.cc:821-832 | exactly the groups that feed the boundary node are finalized |
| Partition.OpenUpstream | src/directml/dml_ep.cc:834-842 | exactly the open groups that feed the node, each once |
| Partition.AbsorbKeepsInv | src/directml/dml_ep.cc:848-857 | moving one open group behind another and renaming its outputs keeps the invariant |
| Partition.MergeOpen | src/directml/dml_ep.cc:844-858 | after merging, no other open group feeds the node, and the target is connected through it |
| Partition.PlaceNode | src/directml/dml_ep.cc:805-863 | placing one node keeps the invariant and the connectedness of every group |
| Partition.BuildGroups | src/directml/dml_ep.cc:796-863 | the groups hold each fuseable node once, in order, are connected, and each is left only past a boundary node that consumed from it, or not at all |
| PartitionTheorems.ContractionIsAcyclic | src/directml/dml_ep.cc:796-863 | contracting any choice of groups leaves no cycle, for every topologically ordered graph |
| PartitionTheorems.ContractedEdgeAscends | src/directml/dml_ep.cc:821-832 | the position of the last member increases along every contracted edge |
| PartitionTheorems.LeavingNeedsCut | src/directml/dml_ep.cc:821-832 | a consumer outside a group comes no earlier than a boundary node that consumed from the group after its last member |
| PartitionTheorems.GroupsAreConvex | src/directml/dml_ep.cc:796-863 | a path between two members stays in the group |
| PartitionTheorems.GroupsPartitionFuseableNodes | src/directml/dml_ep.cc:817-863 | exactly the fuseable nodes are in a group, in one group and once |
| PartitionTheorems.ListIsTopological | src/directml/dml_ep.cc:850-860 | in list order, also after merges, no member depends on a later one |
| PartitionTheorems.NoEdgeBetweenOpenGroups | src/directml/dml_ep.cc:834-858 | an edge between two groups starts in a finalized one |
| PartitionTheorems.GroupsAreWeaklyConnectedIff | src/directml/dml_ep.cc:834-863 | no split of a group is free of edges, exactly if edges inside the group connect the ends of those of its links that are no edges |
| PartitionTheorems.GroupsAreWeaklyConnected | src/directml/dml_ep.cc:834-863 | with all outputs named this is always so |
| PartitionTheorems.GroupsAreClosed | src/directml/dml_ep.cc:834-863 | without boundary nodes a group contains every weakly connected set that it meets |
| PartitionTheorems.GroupsAreComponentsIff | src/directml/dml_ep.cc:834-863 | without boundary nodes the groups are exactly the weakly connected components if and only if edges connect the ends of every link of the graph |
| PartitionTheorems.UnnamedOutputJoinsStrangers | src/directml/dml_ep.cc:861-862 | two nodes without an edge share a group through the empty name |
| CpuPlacement.DecidedByEarlier | src/directml/dml_ep.cc:1798-1951 | what is decided about a node depends on earlier nodes only |
| CpuPlacement.SolutionIsUnique | src/directml/dml_ep.cc:1671-1954 | the placement equations have one solution, so the order of the seeds cannot matter |
| CpuPlacement.ForwardSolves | src/directml/dml_ep.cc:1793-1797 | one forward pass over the nodes solves the equations |
| CpuPlacement.SpreadStep | src/directml/dml_ep.cc:1923-1951 | spreading the popped node leaves all earlier verdicts right |
| CpuPlacement.PlaceInCpu | src/directml/dml_ep.cc:1857-1914 | the node is placed exactly when every input allows it |
| CpuPlacement.Seed | src/directml/dml_ep.cc:1683-1786 | the two passes give exactly the seed values and the seed nodes, in whatever order the second one visits kernels |
| CpuPlacement.SeedValueIff | src/directml/dml_ep.cc:1683-1786 | a value is a seed exactly if a kernel of the provider puts it into CPU memory or requires it there |
| CpuPlacement.GetCpuPreferredNodes | src/directml/dml_ep.cc:1671-1954 | a node of the provider is placed exactly if it is popped and each of its inputs is there, typed, not of a reduced type, and either small or a value in CPU memory that the kernel does not want there; the popped nodes are the seeds and the readers of placed ones, in non-decreasing topological order; and all this is what one forward pass decides |
| ShapeReference.EvalMonotone | src/directml/dml_ep.cc:944-1039 | a node that could be evaluated keeps its value when more becomes known |
| ShapeReference.DivisionUndone | src/directml/dml_ep.cc:1003-1026 | multiplying undoes dividing, and dividing multiplying, by values that are not zero |
| ShapeReference.GatherPicks | src/directml/dml_ep.cc:957-968 | indices in range pick their entries in order, negative ones from the end |
| ShapeReference.SliceAndConcat | src/directml/dml_ep.cc:972-1038 | what lies before a cut and what lies behind it, joined in this order, is the data; a start from the end selects the same |
| ShapeReference.EvalPassesArguments | src/directml/dml_ep.cc:944-1039 | evaluating a node hands each operator its inputs in their roles: data, indices, starts, ends |
| ShapeReference.ScaledIsScaledBy | src/directml/dml_ep.cc:1168-1172 | each entry of a scaled shape is the product of dimension and scale without its fraction |
| ShapeReference.NonnegativeScaling | src/directml/dml_ep.cc:1168-1172 | for sizes and scales that are not negative it is the greatest integer not above the product |
| ShapeResolution.EvaluationIsSound | src/directml/dml_ep.cc:944-1039 | evaluating a node from the tables gives its recursive value |
| ShapeResolution.ScaledIsSound | src/directml/dml_ep.cc:1044-1172 | a resolved output shape is the one recursive evaluation gives |
| ShapeResolution.ResolvedShape | src/directml/dml_ep.cc:1044-1172 | in sound tables a resolved shape is what the attribute, the constant sizes, the constant scales or the computed scales make of the input shape, in this order of precedence |
| ShapeResolution.HandedOnIsSound | src/directml/dml_ep.cc:1185-1217 | the shape handed to the first Cast is that Cast's recursive shape |
| ShapeResolution.Confluent | src/directml/dml_ep.cc:879-1221 | tables reached in different ways never disagree on a value or a shape |
| ShapeResolution.TablesAreComplete | src/directml/dml_ep.cc:879-1221 | tables in which every node is settled equal the recursive evaluation, for values and shapes, if no node waits for an input that it does not use |
| ShapeResolution.PreferredIsSettled | src/directml/dml_ep.cc:929-1041 | a scaling node that prefers the CPU counts as settled whatever is known about its input |
| ShapeResolution.PreferredStaysUnresolved | src/directml/dml_ep.cc:929-1041 | an Upsample of 4 by 2 that prefers the CPU: final tables lack the shape that recursion gives, 8 |
| ShapeResolution.ShapeResolver.WriteValue | src/directml/dml_ep.cc:931-1039 | a value is written only where there was none, and that is progress |
| ShapeResolution.ShapeResolver.EvaluateNode | src/directml/dml_ep.cc:944-1039 | writes the value if it is known, and reports a change exactly then |
| ShapeResolution.ShapeResolver.CollectBackward | src/directml/dml_ep.cc:1085-1112 | the chain goes from each value to the node that produces it and on to that node's first input, through values that are not known yet; it ends after five nodes or where it cannot go on |
| ShapeResolution.ShapeResolver.BackwardWalk | src/directml/dml_ep.cc:1083-1157 | the unguarded writes never overwrite an entry, are sound, and are progress; afterwards every node of the chain that the walk evaluates has its value, or none can be computed |
| ShapeResolution.ShapeResolver.ResolveScaling | src/directml/dml_ep.cc:1044-1172 | without a change the shape cannot be determined from the tables |
| ShapeResolution.ShapeResolver.SetResolvedDims | src/directml/dml_ep.cc:1174-1219 | the shape is entered for the output and for those of the first Cast behind it, and nothing else; that is progress |
| ShapeResolution.ShapeResolver.VisitNode | src/directml/dml_ep.cc:884-1220 | a visit that reports no change leaves nothing to do at the node |
| ShapeResolution.ShapeResolver.Resolve | src/directml/dml_ep.cc:879-1221 | the loop terminates within the number of unresolved names and shapes plus one, at a state where every node is settled, with each resolved shape the product of its input shape and its scales, cut to integers, or the given sizes; all entries equal the recursive evaluation, and nothing that it finds is missing, if no node waits for an input that it does not use |
| ShapeResolution.ResolveDoubling | src/directml/dml_ep.cc:879-1221 | a graph that reads the shape, slices, doubles and divides it to get its scales: an input of 1, 3, 8, 8 ends up as 1, 3, 16, 16, behind the Resize and behind its Cast |
| FusionMatching.BuildConnectivity | src/directml/fusion_utils.cc:140-204 | the maps name the last producer of every value, and its consumers in order, each once for each of its readings |
| FusionMatching.Follow | src/directml/pattern_matcher.cc:181-248 | a followed edge leads to a producer or consumer of its value; a value read downstream inside the pattern has no other reader |
| FusionMatching.SearchFinds | src/directml/pattern_matcher.cc:31-270 | what the greedy search finds is an embedding of the pattern tree, without repetition and without fused nodes, behind what was matched before |
| FusionMatching.SearchRecordsNode | src/directml/pattern_matcher.cc:49-180 | a found node can be looked up, under its name or under its operator and place, unless a branch takes the name away |
| FusionMatching.SearchIsComplete | src/directml/pattern_matcher.cc:31-270 | an embedding that leaves no choice is found, with just its nodes and captures: every edge leads to its node, only absent optional branches are left out, and the checks hold with what has been captured on the way |
| FusionMatching.MandatoryIsFoundIff | src/directml/pattern_matcher.cc:31-270 | for mandatory branches, checks that ignore captures, one producer of each value and one candidate for each terminal branch, a match is found if and only if there is an embedding free of fused nodes, and it is that one |
| FusionMatching.MatchNode | src/directml/pattern_matcher.cc:31-270 | with its snapshots and its undo by popping, the matcher succeeds exactly if the greedy search does, with the same match; a failure never cuts into earlier nodes |
| FusionMatching.MatchPattern | src/directml/pattern_matcher.cc:272-286 | the match of a whole pattern is an embedding, and any embedding that leaves no choice is matched |
| FusionPass.KeepNodes | src/directml/ep_fusion_manager.cc:183-240 | the kept nodes, in matching order, are the anchor, those no other matched node reads, and those only the match reads |
| FusionPass.DetourIff | src/directml/ep_fusion_manager.cc:183-240 | a path of the graph leaves the fused nodes and returns exactly if a matched node left out reads from one of them, or an outside reader of the anchor or of a terminal node leads back |
| FusionPass.BiasGeluStopsBeingConvex | src/directml/bias_gelu_ep_fusion.cc:167-191 | a BiasGelu match whose fused nodes have a path out and back in |
| FusionPass.ApplyFusions | src/directml/ep_fusion_manager.cc:120-277 | fused groups are disjoint, supported, avoid the excluded nodes, and each comes from an accepted match of its anchor's pattern and is the kept part of it; every fused node is claimed once; every other node had nothing to fuse given exactly what the nodes before it had fused, or the runtime refused |
| FusionPass.SaturatedIsFused | src/directml/ep_fusion_manager.cc:120-277 | an embedding without choice, of eligible nodes that are still free, accepted and not refused, is fused when its anchor's turn comes |
| FusionPass.GeluIsFused | src/directml/bias_gelu_ep_fusion.cc:167-191 | the five nodes of Gelu with a bias are found from the Erf, first upstream and then downstream, and fused |
| FusionPass.FuseGelu | src/directml/ep_fusion_manager.cc:120-277 | the pass in place, run on this graph, claims exactly its five nodes |
| TierClaims.BuiltGroupsOk | src/directml/dml_ep.cc:817-863 | the built groups are disjoint and hold supported nodes only |
| TierClaims.ClaimGroups | src/directml/dml_ep.cc:1226-1284 | the claimed nodes are those of the groups that passed their checks in some round, each claimed once; there are at most ten rounds, and fewer only after one that neither claimed a group nor found a shape |
| TierClaims.ClaimSingles | src/directml/dml_ep.cc:1366-1380 | exactly the remaining eligible nodes, each once |
| TierClaims.ClaimNodes | src/directml/dml_ep.cc:1226-1385 | across the three tiers every supported node that does not prefer the CPU is claimed exactly once, and no other node: those of passed groups first, then what fusion finds among the rest, then the others one by one |
| AbiKernelCache.ChangedIsExact | src/directml/dml_abi_kernel.cc:3303-3347 | between CPU tensors, the snapshot comparison reports a change exactly when the tensors differ |
| AbiKernelCache.ComputeSucceedsIff | src/directml/dml_abi_kernel.cc:3681-3869 | a call succeeds exactly if the kernel runs and either creation would succeed or there is a stored kernel and no temporary one is needed |
| AbiKernelCache.TemporaryIff | src/directml/dml_abi_kernel.cc:3681-3852 | with constants in CPU memory or unchanged, a temporary kernel is made exactly if the stored one is not the call's own |
| AbiKernelCache.ComputeIsFreshIff | src/directml/dml_abi_kernel.cc:3681-3869 | a successful call runs the kernel made for it exactly when no required constant differs unseen: for the stored kernel, one outside CPU memory now or then; for a temporary one, one that has gone missing |
| AbiKernelCache.ComputeKeepsRecord | src/directml/dml_abi_kernel.cc:3365-3679 | a stored kernel is never altered, and what is recorded is what it was made from |
| AbiKernelCache.EveryCallRunsItsOwnKernel | src/directml/dml_abi_kernel.cc:3365-3869 | over every run of a lazily created kernel with its constants supplied, a call runs the kernel made from its own shapes and constants if running succeeds and creating does too or is not needed, since the first created kernel is this one; otherwise it fails |
| AbiKernelCache.StoredKernelNeverChanges | src/directml/dml_abi_kernel.cc:3612-3623 | once stored, the kernel and its record stay for the rest of the run, and it was created once |
| AbiKernelCache.UncheckedIsFreshIff | src/directml/dml_abi_kernel.cc:3681-3688 | over every run without comparison, a call runs the kernel of the eager creation or of the first successful one, or fails if there is none or running fails; it is the call's own exactly if shapes and required constants are those it was made for |
| AbiKernelCache.EagerCallsAreFresh | src/directml/dml_abi_kernel.cc:3041-3078 | with shapes and constants fixed by the graph, every call on an eager kernel runs its own |
| AbiKernelCache.StaleWithoutShapes | src/directml/dml_abi_kernel.cc:3681-3688 | two calls on an operator that does not depend on input shapes, the second with another constant, run the same kernel; no operator is registered so |
| AbiKernelCache.ValidityMismatchGoesUnnoticed | src/directml/dml_abi_kernel.cc:3332-3334 | a constant that moves to GPU memory does not lead to a new kernel |
| AbiKernelCache.AbiKernel.Create | src/directml/dml_abi_kernel.cc:3015-3263 | created eagerly exactly when all constants and, if required, the shapes are known; nothing is recorded either way |
| AbiKernelCache.AbiKernel.Compute | src/directml/dml_abi_kernel.cc:3349-3869 | the method in place does what the specification of one call says, in state and in result |
| BiasGeluCache.StepKeepsInv | src/directml/bias_gelu_ep_fusion.cc:376-402 | every step of every thread keeps the lock discipline and the slot |
| BiasGeluCache.EveryThreadRunsItsOwnSizes | src/directml/bias_gelu_ep_fusion.cc:376-402 | under every schedule, from an empty slot or one filled at compile time, the slot is filled at most once, and each thread runs a kernel for its own sizes |
| BiasGeluCache.NoUnsetKernel | src/directml/bias_gelu_ep_fusion.cc:391-402 | no thread executes while the kernel it points to is unset |
| BiasGeluCache.SharedKernelIsFinal | src/directml/bias_gelu_ep_fusion.cc:379-388 | once initialised, the shared kernel and its sizes are never written again |
| BiasGeluCache.LateComerNeverWaits | src/directml/bias_gelu_ep_fusion.cc:376-377 | a thread that comes when the slot is initialised never asks for the lock |
| BiasGeluCache.SomeoneCanMove | src/directml/bias_gelu_ep_fusion.cc:376-402 | as long as some thread is not finished one can go on, so there is no deadlock |
| BiasGeluCache.FairRunsFinish | src/directml/bias_gelu_ep_fusion.cc:376-402 | if every thread gets its turn in each of eight rounds per thread, all finish; one whose compilations succeed has then run a kernel for its own sizes |
| BiasGeluCache.OwnDataTypeIff | src/directml/bias_gelu_ep_fusion.cc:391-402 | a thread runs exactly its own kernel if and only if the shared one has its data type or other sizes |
| BiasGeluCache.OneDataType | src/directml/bias_gelu_ep_fusion.cc:376-402 | with one data type in use, by the kernel compiled ahead too, every thread runs exactly its own kernel |
| BucketAllocator.SmallestBucket | src/directml/dml_bucketized_buffer_allocator.cc:67-80 | a size's bucket is the smallest that holds it |
| BucketAllocator.PooledWidthBounds | src/directml/dml_bucketized_buffer_allocator.cc:67-80 | above 64 KB a pooled buffer is less than twice the size |
| BucketAllocator.AdoptedIff | src/directml/dml_bucketized_buffer_allocator.cc:118-120 | an unpooled buffer has the width of a bucket exactly when the size is at most three bytes short of it |
| BucketAllocator.FreeIsSafeIff | src/directml/dml_bucketized_buffer_allocator.cc:151-158 | a free finds its bucket unless the size is just short of a bucket that does not exist yet |
| BucketAllocator.EveryBufferIsInOnePlace | src/directml/dml_bucketized_buffer_allocator.cc:92-158 | every buffer is in one bucket of its width, or held by one allocation, or handed over for release |
| BucketAllocator.BucketizedAllocator.Alloc | src/directml/dml_bucketized_buffer_allocator.cc:84-133 | with rounding every buffer has the width of its size's bucket, without it only one of exactly that size; such a buffer is the last one in that bucket, if there is one, and leaves it; any other is new |
| BucketAllocator.BucketizedAllocator.Free | src/directml/dml_bucketized_buffer_allocator.cc:143-166 | the buffer goes back to the bucket of its width, or is queued for release unless the context is closed |
| BucketAllocator.FirstFreeWithoutBucket | src/directml/dml_bucketized_buffer_allocator.cc:151-155 | 65535 bytes, unrounded and first, cannot be freed safely |
| CopyBatch.CopyEngine.CopyTensorsPlugin | src/directml/dml_execution_provider.cc:470-555 | for any aliasing, memory ends up as if the tensors had been copied one by one in order; the call fails exactly if the heap for some readbacks that wait together cannot be made, and then only what comes before them is done |
| CopyBatch.KindsOfCopies | src/directml/dml_execution_provider.cc:393-467 | which bytes a copy of each kind puts where, and that nothing else changes |
| CopyBatch.ReadbackIsSequential | src/directml/dml_readback_heap.cc:126-207 | a batched readback equals single ones if the offsets do not wrap around |
| CopyBatch.CopyEngine.ReadbackFromGpu | src/directml/dml_readback_heap.cc:126-207 | the loops in place do what the specification of a batched readback says, or memory is unchanged when the heap cannot be made |
| CopyBatch.CopyEngine.ComputeNewCapacity | src/directml/dml_readback_heap.cc:32-48 | terminates with the capacity doubled until it suffices, or gives up before it would overflow |
| CopyBatch.CopyEngine.EnsureReadbackHeap | src/directml/dml_readback_heap.cc:50-66 | a heap that is large enough stays, the same object with the same bytes; a larger one replaces it, and if the device refuses that one there is no heap |
| CopyBatch.GrownIsAsPossible | src/directml/dml_readback_heap.cc:32-66 | growing the heap changes nothing about which sizes it can be grown to |
| CopyBatch.CopyEngine.ReadbackOne | src/directml/dml_readback_heap.cc:68-124 | one tensor is read back as copied directly, or not at all if the heap cannot be made |
| CopyLimits.HeapSufficesIff | src/directml/dml_readback_heap.cc:137-164 | where buffers stay below 2^32 bytes, all tensors of a batch whose heap can be made lie in it exactly if their sizes add up to less than 2^32, and then the batch is read back as if one by one |
| CopyLimits.FiveGigabytesOverrun | src/directml/dml_readback_heap.cc:137-164 | tensors of 3 and 2 GiB get a heap of less than 2 GiB |
| CopyLimits.AboveTwoGigabytes | src/directml/dml_readback_heap.cc:50-66 | the first heap for a batch of more than 2 and less than 4 GiB has exactly 2^32 bytes, which a device limited to less refuses |
| CopyLimits.CopyTensor | src/directml/dml_execution_provider.cc:393-467 | a copy of any kind is done, or refused with memory unchanged |
| CopyLimits.CopyTensors | src/directml/dml_execution_provider.cc:615-672 | the other copies in order, then the readbacks in order; after an error, or if the heap for the readbacks cannot be made, only the other copies before it |
| CopyLimits.Commute | src/directml/dml_execution_provider.cc:626-667 | a readback and a later copy can change places unless they conflict |
| CopyLimits.DeferredIsSequential | src/directml/dml_execution_provider.cc:626-667 | with no conflict between a readback and a later copy the result is the sequential one |
| CopyLimits.DeferredIsSequentialIff | src/directml/dml_execution_provider.cc:626-667 | for every batch the result is the sequential one for all memory contents if and only if each written byte has the same origin in both orders, which addresses and sizes decide |
| CopyLimits.LaterCopyIsReadBack | src/directml/dml_execution_provider.cc:626-667 | of a readback and a later upload to its source, the uploaded byte is what is read back |
| CopyTrace.BytesComeFromOrigins | src/directml/dml_execution_provider.cc:393-467 | after any copies each byte is the one that was at its origin, found by going back from address to address |
| CopyTrace.SameEffectIff | src/directml/dml_execution_provider.cc:615-672 | two sequences of copies have the same effect on all memory contents if and only if every byte has the same origin |
| CopyLimits.PairIsSequentialIff | src/directml/dml_execution_provider.cc:626-667 | for one readback and one later copy the order matters for some memory exactly when they conflict |
| Strides.GetDescendingPackedStrides | src/directml/dml_common.cc:169-179 | each stride is the product of the later sizes modulo 2^32 |
| Strides.ComputedStridesArePacked | src/directml/dml_common.cc:169-179 | without overflow of the element count these are the packed strides |
| Strides.UnravelOffset | src/directml/dml_common.cc:169-179 | unravelling the packed offset of an index gives the index back |
| Strides.OffsetUnravel | src/directml/dml_common.cc:169-179 | every number below the element count is the packed offset of the index it unravels to |
| Strides.OffsetInRange | src/directml/dml_common.cc:169-179 | packed offsets stay below the element count |
| Strides.BiasStrides | src/directml/bias_gelu_ep_fusion.cc:255-262 | stride 0 along sizes of one, the packed stride modulo 2^32 elsewhere |
| Strides.ComputedStridesBroadcast | src/directml/bias_gelu_ep_fusion.cc:255-262 | without overflow these are the broadcast strides |
| Strides.BroadcastOffset | src/directml/bias_gelu_ep_fusion.cc:255-262 | they send an index to the packed offset of the bias element it projects to |
| Strides.BroadcastInRange | src/directml/bias_gelu_ep_fusion.cc:255-268 | that offset is below the number of bias elements |
| Strides.BiasReadsInRangeIff | src/directml/bias_gelu_ep_fusion.cc:372-374 | all reads of the bias are in range exactly if it has one element or at least as many as the last dimension |
| Strides.TwoBiasesForThree | src/directml/bias_gelu_ep_fusion.cc:372-374 | with two biases and a last dimension of three, the third element reads past the bias |

## Left out

- D3D12, DirectML, COM and runtime calls, status bookkeeping, logging and profiling: foreign code. A creation that may fail
  is a parameter, and a flush or GPU step may happen at any time, which covers the timing of `FlushUploadsIfReady`.
- Descriptor pools, the command allocator ring and the recycling of command list objects.
- Device enumeration, factories, registration tables, operator translators, the kernel cache of `PluginDmlAbiOpKernel`, the
  GPU constant cache, half-precision decoding, and the routing of fused subgraphs by hash, where colliding node sets would
  share an entry.
- UploadRing.AlignIsLeast: the mask is written as arithmetic, for the power of two that the header defines.
- UploadHeap.PooledUploadHeap.BeginUploadToGpu: requires a request that can be placed, like all that builds on it;
  `ReservePlaceableIff` says exactly which ones cannot, and `PlainRunsAreLegal` that without empty uploads only the chunk
  limit matters.
- CommandStream.NothingLostOrReordered: runs before `Close`; `ClosedWorkIsNeverSubmitted` is about runs after it.
- ExecutionContext.ExecutionContext.SetCommandRecorder: there is one recorder, as in the source. The `needs` of the queue
  are ghost bookkeeping of which commands a reference protects.
- Partition.BuildGroups: nodes are numbered by position and groups hold values; the runtime's node ids are left out.
- CpuPlacement.GetCpuPreferredNodes: the queue is a multiset with a least-element pop, and its key is the position in
  topological order, which stands for the node id. Consumers come after producers, as the runtime orders them. A value is
  the same for its producer and its consumers; the source goes by pointer, although a comment further down
  (dml_ep.cc:602-607) says that producers and consumers hold different objects for one value.
- ShapeResolution.ShapeResolver.Resolve: element values are reals, so rounding is left out. Values have one producer, and
  the outputs of evaluated and of scaling operators are named; the source looks some up by pointer. A Slice that starts
  before its data reads out of bounds in the source and stays unresolved here. The second lookup of a Resize's third input
  finds nothing new and is left out, and so is writing the resolved shape into the graph's own metadata, which lookups
  prefer and which then says the same. That the tables are complete is stated for nodes that read only inputs they use, and
  for scaling nodes that do not prefer the CPU: a node waits for all its inputs, and `PreferredStaysUnresolved` shows that a
  scaling node that prefers the CPU is never resolved.
- FusionMatching.MatchNode: the input constraints of a pattern are an arbitrary function of the node and the captures so
  far. The greedy search may fail although an embedding exists, since it never takes a choice back; `SearchIsComplete` and
  `MandatoryIsFoundIff` say where there is no choice.
- FusionPass.ApplyFusions: the rules' own checks and the runtime's answers are parameters.
- TierClaims.ClaimGroups: the checks on a group and the growth of the shape table are parameters, per round and group.
- AbiKernelCache.EveryCallRunsItsOwnKernel: requires constants in CPU memory at every call and at least one input, since
  validity mismatches are deliberately ignored.
- BiasGeluCache.EveryThreadRunsItsOwnSizes: memory is sequentially consistent, and the input has at least one dimension.
- BucketAllocator.SmallestBucket: the bucket index uses an integer logarithm where the source uses `double`, and the shift
  does not overflow.
- BucketAllocator.BucketizedAllocator.Free: requires that the bucket exists; `FreeIsSafeIff` says when it does.
- CopyBatch.CopyEngine.CopyTensorsPlugin: requires pending readbacks of less than 4 GiB at a time, which `HeapSufficesIff`
  shows to be exactly when they lie in their heap, and copies that the API accepts. The device creates buffers of up to
  some size, which is a parameter. GPU memory is taken as it is once all issued commands have run, and a copy within CPU
  memory moves its bytes.
- CopyLimits.DeferredIsSequential: a condition on pairs, which is sufficient; `DeferredIsSequentialIff` is the exact one.
