# FlexShard movement and planning, in Dafny

FlexShard shards model parameters over ranks and moves them: gathered before use, reduced after
backward, redistributed for an optimizer step. This project models the code that decides which
element lives where and brings it back, and proves that exactly the right element arrives, for all
shapes, ranks, hosts, plans and interleavings. Tensor elements are opaque values, ranks are numbers,
and collectives are specified by their effect.

- **Owner-rows transport.** `OwnerRowsPlan` plans the hops of uneven owner rows over equal chunks
  and relay slots; `Holes` and `OwnerRowsTransport` read off it what each rank does. `RankMachine`
  is a transition system of ranks with host barriers and asynchronous copies; `OwnerRowsGather` and
  `OwnerRowsReduce` prove for all of its interleavings that gathers and reduces deliver, never race
  and never get stuck.
- **DistMuon redistribution.** `Regions` and `RegionValidator` are N-dimensional regions and their
  exact validation; `RedistributionPlan` the plans and the whole-tensor builder; `BlockShards`,
  `ShardPlans` and `ShardBuilders` the builders for shards of rows and of blocks; `MatrixViews` the
  strided matrix views of a shard. `PackedSchedule`, `PackedExchange`, `PackedDelivery`, `RoundTrip`
  and `WholeTensorTrip` follow elements through packed all-to-alls and back. `StreamOps`,
  `StreamLog`, `RedistributionPipeline`, `PipelineRun` and `PipelineSafety` model the two-stream
  pipeline as a queue with events and prove every execution equivalent to one bucket at a time.
- **Quantized buckets.** `UnitPartition` is the min-max partition, `QuantLayout` the chunks,
  `QuantBalance` what the partition means for the bytes that ranks store; `QuantBucket`,
  `QuantGather`, `QuantGradScales` and `QuantUnshard` pack, gather and compact what an uninterpreted
  tile quantizer makes of them. FP8 is the format without input-gradient scales,
  MXFP8 the one with 512 bytes of them for each tile of 128 x 128 elements.
- **Block layout and mixed buckets.** `BucketRows` is the layout, `BucketGather` storing and
  gathering, `ReduceCopyIn` the simple reduce copy-in, `ReducePlan`, `ReducePack`, `SegmentCopy` and
  `ReduceOnePass` the one-pass one, `MixedBucket` and `MixedRows` rows shared by several groups.
- **Balancing.** `Balancing` has the bounds, `Orders` orders of jobs, `OwnerAssignment`,
  `HostBalance` and `BucketPlanner` the greedy assignments.
- **Layouts of global tensors.** `GlobalLayouts` and `StackedLayout`.
- **Expert parallelism.** `ExpertParallel` is dispatch and combine, `RoutedExperts` what the routed
  experts make of a rank's tokens.
- **Bucket runtime.** `BucketState` says what every hook and method makes of the state,
  `BucketSafety` what all of them keep, `BucketTriggers` when in a run a post-backward happens and what
  finishing does, `BucketPrefetch` what is prefetched and what becomes of it, and `BucketRuntime` is
  the context as a class.
- `Arithmetic`, `Multiples`, `Basics` and `Buffers` hold what several of these use.

A method that changes state or loops, as the code it models does, is specified by a function of its
inputs or of the old state, and the lemmas are about that function.

Two statements of the code or its documentation don't hold as they stand.

- The pipeline's documentation says that no later prepare runs before an intervening local bucket.
  The host queues them in that order, but the transfer stream doesn't wait for the local bucket.
  `PipelineSafety.LocalRunsFirst` gives the exact condition under which it still comes first, and
  `PipelineSafety.PreparePassesLocal` a case where it may not. The run's results don't depend on it.
- The post-forward hook reshards without looking whether its bucket is unsharded. When a forward of
  the same bucket has run inside this one and the bucket is being prefetched again by then, that
  frees storage an unshard in flight writes. `BucketSafety.PostForwardIs` gives the exact condition,
  `BucketSafety.NestedForwardBreaks` the case; `BucketSafety.RunIsGood` covers all other runs.

## Model

| member | source | states |
|---|---|---|
| OwnerRowsPlan.PlanOwnerRowsTransport | src/flex_shard/custom_placements/owner_rows_transport.py:93-166 | For any row lengths and any rank-to-host map, the plan's moves carry every position of every row from its owner to the rank whose chunk holds it, in slots that no two slices share; the chunk is the least multiple of 128 that holds a rank's share, no rank exchanges more with another host than the least multiple of 128 with which the smaller host's ranks can share the pair's traffic, and only needed slots exist, without gaps; it fails exactly when the hosts don't match the ranks or there are none |
| OwnerRowsPlan.PartIs | src/flex_shard/custom_placements/owner_rows_transport.py:46-47 | An aligned share is the least multiple of 128 that is enough: so many of them as there are ranks or rails hold the total |
| OwnerRowsPlan.RoutesEven | src/flex_shard/custom_placements/owner_rows_transport.py:124-140 | For each pair of hosts, what any rank sends to the other host, or receives from it, is no more than the least multiple of 128 that suffices when as many ranks as the smaller host has share the pair's traffic |
| OwnerRowsPlan.PlanTight | src/flex_shard/custom_placements/owner_rows_transport.py:142-166 | Only slices that pass through a rank outside its chunk have a slot there, and the slots follow each other and end the buffer without gaps beyond alignment |
| OwnerRowsPlan.CutRows | src/flex_shard/custom_placements/owner_rows_transport.py:110-123 | The rows are cut at row and chunk boundaries into pieces that cover every position once; pieces that stay on a host become owner moves, the others are listed by host pair in order |
| OwnerRowsPlan.MembersByHost | src/flex_shard/custom_placements/owner_rows_transport.py:102-104 | Each host's ranks, in rank order, and no entry for a host without ranks |
| OwnerRowsPlan.RoutePiece | src/flex_shard/custom_placements/owner_rows_transport.py:134-140 | A piece between hosts is cut exactly where the rails' shares end, and each part gets its three hops |
| OwnerRowsPlan.RoutePair | src/flex_shard/custom_placements/owner_rows_transport.py:132-140 | All pieces of one host pair are cut over the pair's rails by their place in the pair's traffic |
| OwnerRowsPlan.RouteLeaving | src/flex_shard/custom_placements/owner_rows_transport.py:124-140 | All host pairs are routed, each over as many rails as both hosts have ranks |
| OwnerRowsPlan.SplitTiles | src/flex_shard/custom_placements/owner_rows_transport.py:134-140 | The parts of a piece lie in one row and one chunk, don't overlap, and cover the piece |
| OwnerRowsPlan.OverlapsInOnePlace | src/flex_shard/custom_placements/owner_rows_transport.py:110-123 | Slices that overlap have the same owner and the same holder |
| OwnerRowsPlan.RailsShareEvenly | src/flex_shard/custom_placements/owner_rows_transport.py:127-132 | Every rail of a host pair carries its equal part of what the pair exchanges, the last used one the rest, none more |
| OwnerRowsPlan.RelaySpace.constructor | src/flex_shard/custom_placements/owner_rows_transport.py:142-143 | No rank has relay slots at first |
| OwnerRowsPlan.RelaySpace.Hold | src/flex_shard/custom_placements/owner_rows_transport.py:145-149 | A slice a rank relays gets an aligned slot behind the chunk and behind the rank's other slots, unless it has one |
| OwnerRowsPlan.RelaySpace.Longest | src/flex_shard/custom_placements/owner_rows_transport.py:165 | The largest relay space of any rank: reached by one, exceeded by none |
| OwnerRowsPlan.AllocateRelays | src/flex_shard/custom_placements/owner_rows_transport.py:151-157 | Exactly the slices of host and relay moves get slots, on the ranks that hold them in transit |
| Holes.Subtract | src/flex_shard/custom_placements/owner_rows_transport.py:310-320 | For any holes, also ones that reach outside the interval, and when they lie inside: exactly the positions of the interval that no hole has, as nonempty ranges in order |
| OwnerRowsTransport.PlaceIs | src/flex_shard/custom_placements/owner_rows_transport.py:84-89 | A position is inside the chunk of its holder's buffer, and behind the chunk, in a relay slot, in any other buffer it passes through |
| OwnerRowsTransport.PlacesDiffer | src/flex_shard/custom_placements/owner_rows_transport.py:84-89 | No two positions share a place of one rank's buffer |
| OwnerRowsTransport.MovedRangesOf | src/flex_shard/custom_placements/owner_rows_transport.py:363-372 | The ranges of a rank's row that leave it: straight to other ranks, or relayed by the rank itself |
| OwnerRowsTransport.RowRanges | src/flex_shard/custom_placements/owner_rows_transport.py:356-379 | The ranges of a rank's row don't overlap, cover the row, and name for each position the buffer that holds it in transit |
| OwnerRowsTransport.Kept | src/flex_shard/custom_placements/owner_rows_transport.py:373-378 | What no move has stays with the owner |
| OwnerRowsTransport.HostOps | src/flex_shard/custom_placements/owner_rows_transport.py:323-346 | A rank's sends and receives between hosts, from and to the slots of its own buffer, in the order of the moves |
| OwnerRowsTransport.OpsPairUp | src/flex_shard/custom_placements/owner_rows_transport.py:323-346 | The sends one rank posts to another and the receives that one posts from it match one for one, in order and length, in both directions |
| OwnerRowsTransport.HostMovesPlaced | src/flex_shard/custom_placements/owner_rows_transport.py:323-346 | Every move between hosts has its slots, and none goes from a rank to itself |
| OwnerRowsTransport.ReadOffPlan | src/flex_shard/custom_placements/owner_rows_transport.py:269-307 | What the ranks read off one plan, for any row lengths and hosts, makes a call of the gather or reduce that the theorems below cover |
| RankMachine.ReadsRight | src/flex_shard/custom_placements/owner_rows_transport.py:437-497 | In every reachable state a copy that may happen finds its position's element where it reads |
| RankMachine.WritesLatest | src/flex_shard/custom_placements/owner_rows_transport.py:437-497 | A copy that may happen overwrites nothing that a later call or another copy of its own call wrote |
| RankMachine.EarlierRoundIsDone | src/flex_shard/custom_placements/owner_rows_transport.py:173-191 | Before a later call touches a host's buffers, everything an earlier call does with them is done |
| RankMachine.ResultsRight | src/flex_shard/custom_placements/owner_rows_transport.py:437-497 | Every interleaving the barriers allow ends with every result holding its position's element |
| RankMachine.NoRaces | src/flex_shard/custom_placements/owner_rows_transport.py:437-497 | In every reachable state, no two copies that may happen next conflict |
| RankMachine.NeverStuck | src/flex_shard/custom_placements/owner_rows_transport.py:182-191 | Until all ranks are through, some step is possible |
| OwnerRowsGather.GatherDelivers | src/flex_shard/custom_placements/owner_rows_transport.py:396-497 | Every interleaving of any number of gathers, for any row lengths and hosts, ends with every rank holding the owner's element at every position that a parameter covers |
| OwnerRowsGather.GatherNeverRaces | src/flex_shard/custom_placements/owner_rows_transport.py:437-497 | No slot is written twice at once, or overwritten while it is read, within a gather or across gathers |
| OwnerRowsGather.GatherNeverStuck | src/flex_shard/custom_placements/owner_rows_transport.py:437-497 | The barriers of the gather never deadlock |
| OwnerRowsReduce.ReduceDelivers | src/flex_shard/custom_placements/owner_rows_transport.py:513-585 | Every interleaving of any number of reduces ends with every owner holding the reduced element at every position of its row |
| OwnerRowsReduce.ReduceNeverRaces | src/flex_shard/custom_placements/owner_rows_transport.py:544-585 | The reversed moves overwrite nothing that is still read, within a reduce or across reduces |
| OwnerRowsReduce.ReduceNeverStuck | src/flex_shard/custom_placements/owner_rows_transport.py:544-585 | All ranks of a host take the same barriers, so none waits for ever |
| StreamOps.SameEffect | src/flex_shard/dist_muon/_optimizer_reshard_runtime.py:420-557 | Two orders of the same work that agree on conflicting pieces leave the same memory, whatever the callbacks compute |
| StreamLog.RunsBefore | src/flex_shard/dist_muon/_optimizer_reshard_runtime.py:420-557 | What stream order and events order runs in that order in every execution |
| StreamLog.ThroughEvent | src/flex_shard/dist_muon/_optimizer_reshard_runtime.py:235-245 | A wait on a recorded event puts everything before the record before everything behind the wait |
| StreamLog.ExecutionsAgree | src/flex_shard/dist_muon/_optimizer_reshard_runtime.py:420-557 | Every execution of a queue whose conflicting work is ordered as in a reference leaves the reference's memory |
| StreamLog.CanFinish | src/flex_shard/dist_muon/_optimizer_reshard_runtime.py:420-557 | Whatever part of a queue has run so far, in any order its streams and events allow, the rest can still run: nothing waits for ever |
| RedistributionPipeline.Streams.EnqueueStorageToCompute | src/flex_shard/dist_muon/_optimizer_reshard_runtime.py:560-588 | On the transfer stream: prepare into the slot, exchange, then the event that the input is ready |
| RedistributionPipeline.Streams.ComputeBucket | src/flex_shard/dist_muon/_optimizer_reshard_runtime.py:590-620 | On the caller stream: wait for the slot's input, compute, then the event that compute is done |
| RedistributionPipeline.Streams.EnqueueComputeToStorage | src/flex_shard/dist_muon/_optimizer_reshard_runtime.py:622-639 | On the transfer stream: wait for compute, exchange back, finalize, then the event that the slot is done |
| RedistributionPipeline.Streams.Release | src/flex_shard/dist_muon/_optimizer_reshard_runtime.py:641-643 | The caller stream waits until the bucket is done |
| RedistributionPipeline.Streams.WaitStream | src/flex_shard/dist_muon/_optimizer_reshard_runtime.py:482-485 | The transfer stream waits for what the caller queued before the run |
| RedistributionPipeline.RecordNext | src/flex_shard/dist_muon/_optimizer_reshard_runtime.py:560-639 | Recording a bucket's event leaves the events of the buckets in flight alone |
| PipelineRun.Prefetch | src/flex_shard/dist_muon/_optimizer_reshard_runtime.py:450-541 | As many of the buckets behind are prepared as there are other slots, up to the next local bucket, and each in its own slot |
| PipelineRun.StartFresh | src/flex_shard/dist_muon/_optimizer_reshard_runtime.py:494-517 | A bucket that wasn't prefetched is prepared after the one before is sent back if they share a slot, and else before |
| PipelineRun.Redistribute | src/flex_shard/dist_muon/_optimizer_reshard_runtime.py:482-541 | One redistributed bucket: the one before is sent back before this one is computed and released after, and every bucket's calls stay in turn |
| PipelineRun.Run | src/flex_shard/dist_muon/_optimizer_reshard_runtime.py:420-557 | For any plans and any number of slots the run queues, for every redistributed bucket exactly once, prepare, compute and finalize, and every local bucket once; both internal asserts hold |
| PipelineSafety.Handover | src/flex_shard/dist_muon/_optimizer_reshard_runtime.py:495-541 | A slot is handed on only after its bucket has been sent back |
| PipelineSafety.InTurn | src/flex_shard/dist_muon/_optimizer_reshard_runtime.py:560-639 | A bucket's three calls are queued in order |
| PipelineSafety.RunIsSafe | src/flex_shard/dist_muon/_optimizer_reshard_runtime.py:420-661 | A complete run's conflicting work is ordered, on every execution, as if the buckets ran one by one |
| PipelineSafety.RunsAsOneByOne | src/flex_shard/dist_muon/_optimizer_reshard_runtime.py:420-661 | Every execution of the two streams does each bucket's work once and leaves the memory that running the buckets one by one leaves |
| PipelineSafety.AfterPrior | src/flex_shard/dist_muon/_optimizer_reshard_runtime.py:482-485 | Nothing of the run starts before what the caller queued before it |
| PipelineSafety.BeforeNext | src/flex_shard/dist_muon/_optimizer_reshard_runtime.py:543-548 | All of the run is done before anything the caller queues next |
| PipelineSafety.LocalQueuedFirst | src/flex_shard/dist_muon/_optimizer_reshard_runtime.py:450-480 | The host queues no prepare before an earlier local bucket |
| PipelineSafety.LocalRunsFirst | src/flex_shard/dist_muon/_optimizer_reshard_runtime.py:307-309 | With two slots a prepare runs after an earlier local bucket exactly if that one precedes all redistributed buckets, or at least two redistributed buckets lie between; the class documentation's barrier holds for the host's order only |
| PipelineSafety.PreparePassesLocal | src/flex_shard/dist_muon/_optimizer_reshard_runtime.py:307-309 | A concrete case: with one redistributed bucket on either side, the second prepare may pass the local bucket on the device |
| Regions.SharedIsCommon | src/flex_shard/dist_muon/_optimizer_reshard_schedule.py:407-447 | The intersection of two regions has exactly their common indices, as many as its size says, and is absent exactly if there are none |
| Regions.VolumeTiles | src/flex_shard/dist_muon/_optimizer_reshard_schedule.py:371-386 | Disjoint regions in bounds have every index exactly once exactly if their sizes add up to the tensor's |
| RegionValidator.CheckDisjoint | src/flex_shard/dist_muon/_optimizer_reshard_schedule.py:321-368 | With the sorted sweep, accepts exactly the lists of regions in bounds of which no two share an index, and says which of the two fails |
| RegionValidator.Sweep | src/flex_shard/dist_muon/_optimizer_reshard_schedule.py:343-368 | Stopping a region's search at the first region past its end misses no overlap |
| RegionValidator.CheckPartition | src/flex_shard/dist_muon/_optimizer_reshard_schedule.py:371-386 | Accepts exactly if the regions are in bounds and every index is in exactly one of them |
| RegionValidator.CheckCover | src/flex_shard/dist_muon/_optimizer_reshard_schedule.py:450-479 | Accepts exactly if the regions are in bounds and disjoint and have the same indices as the expected ones |
| RedistributionPlan.CheckParticipantPartition | src/flex_shard/dist_muon/_optimizer_reshard_schedule.py:389-404 | Accepts exactly disjoint regions in bounds with as many elements as the participant's tensor |
| RedistributionPlan.CheckPlan | src/flex_shard/dist_muon/_optimizer_reshard_schedule.py:229-318 | Accepts exactly the plans whose routes take every stored element from all its holders to every participant that computes on it, each once on either side |
| RedistributionPlan.CheckLeaves | src/flex_shard/dist_muon/_optimizer_reshard_schedule.py:289-318 | Accepts exactly if a participant's routes carry all of its regions and make up its tensor |
| RedistributionPlan.CollectOne | src/flex_shard/dist_muon/_optimizer_reshard_schedule.py:517-525 | Adds a region's holders exactly if none of them holds another region |
| RedistributionPlan.CollectHolders | src/flex_shard/dist_muon/_optimizer_reshard_schedule.py:502-530 | Succeeds exactly if every participant holds one of the regions, and then gives each its region |
| RedistributionPlan.BuildWholeTensorPlan | src/flex_shard/dist_muon/_optimizer_reshard_schedule.py:482-566 | Succeeds exactly for storage that has every element once and gives every participant one region, with compute at some participants; the plan is valid |
| BlockShards.NextBlock | src/flex_shard/dist_muon/optimizer_reshard.py:93-96 | Blocks follow each other in the order of the repeating pattern |
| BlockShards.BlocksEnd | src/flex_shard/dist_muon/optimizer_reshard.py:83-96 | With whole repetitions, the blocks start at 0 and end at the end of the dimension |
| BlockShards.BlockOf | src/flex_shard/dist_muon/optimizer_reshard.py:93-96 | Every row below a block boundary is in some block before it |
| BlockShards.PeriodLater | src/flex_shard/dist_muon/optimizer_reshard.py:93-96 | A period of blocks later is a period of rows later |
| BlockShards.ShardsInOrder | src/flex_shard/dist_muon/optimizer.py:771-776 | Shards of units don't overlap and follow each other |
| BlockShards.ShardOf | src/flex_shard/dist_muon/optimizer.py:771-776 | Every unit is in some shard |
| BlockShards.EdgesEven | src/flex_shard/dist_muon/optimizer.py:771-776 | No shard has more than its share of the units, rounded up, and behind one that has fewer there is nothing left |
| ShardPlans.OneRegionLeaves | src/flex_shard/dist_muon/_optimizer_reshard_schedule.py:585-702 | Routes that tile the tensor and stay inside the one region of every participant that has them are exactly that participant's elements, and make up its tensor |
| ShardPlans.RoutesTile | src/flex_shard/dist_muon/_optimizer_reshard_schedule.py:651-694 | The routes for all overlaps of storage regions and compute pieces have every element once exactly if the storage regions do |
| ShardPlans.PlanIsValid | src/flex_shard/dist_muon/_optimizer_reshard_schedule.py:585-702 | Such a plan is valid exactly if the storage regions have every element once |
| ShardBuilders.ShardsTile | src/flex_shard/dist_muon/_optimizer_reshard_schedule.py:618-649 | The participants' shards, in any order of the participants, have every element of the tensor once |
| ShardBuilders.Dim0Routes | src/flex_shard/dist_muon/_optimizer_reshard_schedule.py:651-694 | Every storage region and shard that share an element get one route, of exactly what they share |
| ShardBuilders.BuildDim0Plan | src/flex_shard/dist_muon/_optimizer_reshard_schedule.py:585-702 | Succeeds exactly for the participants in some order and storage that has every element once with one region for each; the plan is valid and the participants share the rows evenly: none has more than its share rounded up, and behind one that has fewer there is nothing left |
| ShardBuilders.BlocksAreShard | src/flex_shard/dist_muon/optimizer.py:1376-1395 | A shard's blocks make up its rows |
| ShardBuilders.BlockRoute | src/flex_shard/dist_muon/optimizer.py:1409-1456 | A block's route carries exactly the rows that the storage region has of it, and there is none exactly if there are no such rows |
| ShardBuilders.BlockRoutes | src/flex_shard/dist_muon/optimizer.py:1398-1456 | Every storage region and block that share rows get one route |
| ShardBuilders.BuildBlockPlan | src/flex_shard/dist_muon/optimizer.py:1317-1465 | Succeeds exactly for a matrix of whole repetitions of the blocks, stored in whole rows, every element once, one region for each participant; the plan is valid and the participants share the blocks evenly: whole blocks, none more than its share rounded up, and behind one that has fewer nothing left |
| MatrixViews.CollectViews | src/flex_shard/dist_muon/optimizer.py:694-712 | One view for each size of the pattern that has complete blocks in the slice, and the rows they have together |
| MatrixViews.AllRowsCounted | src/flex_shard/dist_muon/optimizer.py:713-715 | The views have all rows of a slice exactly if the slice is whole blocks |
| MatrixViews.MatrixBatchViews | src/flex_shard/dist_muon/optimizer.py:688-716 | The assertion holds exactly for slices of whole blocks; then the strided views, by offset, list every element of the slice once, and each matrix is one block |
| MatrixViews.ShardIsWhole | src/flex_shard/dist_muon/optimizer.py:1376-1395 | The slices that block plans compute on are whole blocks |
| PackedSchedule.ResolveRoutes | src/flex_shard/dist_muon/_optimizer_reshard_schedule.py:781-802 | The transfers of the routes, in route order and destination order |
| PackedSchedule.RouteServed | src/flex_shard/dist_muon/_optimizer_reshard_schedule.py:781-802 | Every destination of every route gets its transfer: from itself if it is one of the sources, and else from the source that is first in participant order |
| PackedSchedule.TransferFromRoute | src/flex_shard/dist_muon/_optimizer_reshard_schedule.py:781-802 | Every transfer serves a destination of one of the routes in this way |
| PackedSchedule.LayOut | src/flex_shard/dist_muon/_optimizer_reshard_schedule.py:818-890 | One side of an exchange is laid out peer by peer, parameter by parameter, without gaps |
| PackedSchedule.BuildSchedule | src/flex_shard/dist_muon/_optimizer_reshard_schedule.py:818-890 | A participant's splits and spans are those of the transfers it takes part in |
| PackedExchange.SplitsAgree | src/flex_shard/dist_muon/_optimizer_reshard_schedule.py:818-890 | What one participant sends another by its own schedule is what the other receives by its own |
| PackedExchange.TransferPlaced | src/flex_shard/dist_muon/_optimizer_reshard_schedule.py:818-890 | A transfer is at the same offset in what the sender has for the receiver and in what the receiver has from the sender |
| PackedExchange.LocalSizesMatch | src/flex_shard/dist_muon/_optimizer_reshard_schedule.py:730-738 | Without remote transfers a participant receives as much as it sends |
| PackedExchange.BuildChecked | src/flex_shard/dist_muon/_optimizer_reshard_schedule.py:730-738 | The schedule's own check of that never fails |
| PackedDelivery.PackBuffer | src/flex_shard/dist_muon/_optimizer_reshard_runtime.py:664-695 | The packed buffer holds every region of every parameter at its span |
| PackedDelivery.PackSpan | src/flex_shard/dist_muon/_optimizer_reshard_runtime.py:664-695 | Packing one region writes its span and nothing else |
| PackedDelivery.UnpackSpan | src/flex_shard/dist_muon/_optimizer_reshard_runtime.py:698-782 | Unpacking one span sets its region and nothing else |
| PackedDelivery.UnpackBuffer | src/flex_shard/dist_muon/_optimizer_reshard_runtime.py:698-782 | Every region of every parameter gets its span's elements |
| PackedDelivery.CopyIsExchange | src/flex_shard/dist_muon/_optimizer_reshard_runtime.py:103-120 | Without remote transfers the flat copy gives what the all-to-all would give |
| PackedDelivery.TransferArrives | src/flex_shard/dist_muon/_optimizer_reshard_runtime.py:664-782 | Pack, exchange and unpack bring every element of every transfer to its place |
| RoundTrip.BringsValues | src/flex_shard/dist_muon/_optimizer_reshard_runtime.py:664-782 | Whatever values the starts of the routes have, all their ends get |
| RoundTrip.PlanGood | src/flex_shard/dist_muon/_optimizer_reshard_schedule.py:229-318 | A valid plan's routes can be run in both directions: no destination is written twice |
| RoundTrip.EveryElementMoves | src/flex_shard/dist_muon/_optimizer_reshard_schedule.py:289-318 | Every element of a participant's tensor is at the start of one of its routes |
| WholeTensorTrip.BuffersReady | src/flex_shard/dist_muon/_optimizer_reshard_runtime.py:664-782 | For any valid plans of a bucket, every participant's schedule gives spans that fit its buffers and don't overlap, so that packing and unpacking can always run |
| WholeTensorTrip.ThereAndBack | src/flex_shard/dist_muon/_optimizer_reshard_runtime.py:664-782 | For any valid plans, storage to compute and back: the compute participants get what storage has, and every stored element of every holder gets what was computed for it |
| WholeTensorTrip.WholeTensorsReturn | src/flex_shard/dist_muon/_optimizer_reshard_runtime.py:664-782 | With whole-tensor compute, every compute participant sees the whole tensors, and if all replace a tensor by the same function of it, every holder of a piece, replicated ones too, gets that piece of the result |
| UnitPartition.CanPartitionUnits | src/flex_shard/custom_placements/blockwise_quant_bucketed_block_shard.py:411-427 | The greedy test accepts exactly if some division into that many contiguous parts stays within the capacity |
| UnitPartition.GreedyBest | src/flex_shard/custom_placements/blockwise_quant_bucketed_block_shard.py:411-427 | Cutting greedily opens no more parts than any other cuts, of parts that are within the capacity or have all their cost in the last unit |
| UnitPartition.MinPartitionCapacity | src/flex_shard/custom_placements/blockwise_quant_bucketed_block_shard.py:429-453 | The smallest capacity for which a division exists; it fails exactly without parts |
| UnitPartition.GreedyCuts | src/flex_shard/custom_placements/blockwise_quant_bucketed_block_shard.py:456-469 | For any capacity the greedy cuts are ordered, every part is within the capacity or has all its cost in the last unit, and no part is empty if there are units |
| UnitPartition.SplitOne | src/flex_shard/custom_placements/blockwise_quant_bucketed_block_shard.py:470-478 | Splits a part of several units if there is one, keeping the order, and parts that fit still fit |
| UnitPartition.RankUnitCuts | src/flex_shard/custom_placements/blockwise_quant_bucketed_block_shard.py:455-483 | For any capacity and number of ranks: raises exactly if the units can't be cut into that many parts that each fit, by themselves or as one unit over the capacity; else one ordered range per rank, none empty if there are enough units |
| UnitPartition.FitsWithin | src/flex_shard/custom_placements/blockwise_quant_bucketed_block_shard.py:455-483 | When no unit alone is over the capacity, the parts that fit are exactly those within the capacity |
| UnitPartition.CutForRanks | src/flex_shard/custom_placements/blockwise_quant_bucketed_block_shard.py:1000-1005 | At the smallest capacity the cuts never raise |
| QuantLayout.BuildUnits | src/flex_shard/custom_placements/blockwise_quant_bucketed_block_shard.py:497-519 | The units are the parameters' block rows, in order and as many as there are, the last of a parameter as long as what is left |
| QuantLayout.BuildChunks | src/flex_shard/custom_placements/blockwise_quant_bucketed_block_shard.py:572-630 | The ranks' chunks have all rows of all parameters once and in order, a rank has at most one chunk of a parameter, and each rank's chunks are the units between its cuts |
| QuantLayout.JoinUnits | src/flex_shard/custom_placements/blockwise_quant_bucketed_block_shard.py:598-630 | Joining a rank's adjacent units keeps their rows |
| QuantLayout.PiecesAreWhole | src/flex_shard/custom_placements/blockwise_quant_bucketed_block_shard.py:356-385 | Quantizing block-aligned chunks and joining the results is quantizing the whole parameters |
| QuantBucket.PieceLens | src/flex_shard/custom_placements/blockwise_quant_bucketed_block_shard.py:352-361 | A chunk's data and scales are as long as the layout counts with |
| QuantGather.RowParts | src/flex_shard/custom_placements/blockwise_quant_bucketed_block_shard.py:792-897 | A rank's packed row has data, scales and input-gradient scales at the layout's aligned offsets |
| QuantGather.MergeAdjacent | src/flex_shard/custom_placements/blockwise_quant_bucketed_block_shard.py:1514-1528 | Merging adjacent regions gathers the same bytes from fewer regions: none empty, none continuing the one before |
| QuantGather.DataGathered | src/flex_shard/custom_placements/blockwise_quant_bucketed_block_shard.py:1237-1318 | The gathered data are the data of the whole parameters |
| QuantGather.ScalesGathered | src/flex_shard/custom_placements/blockwise_quant_bucketed_block_shard.py:363-385 | The gathered scales are the scales of the whole parameters, for any split over ranks |
| QuantGradScales.CollectChunks | src/flex_shard/custom_placements/mxfp8_bucketed_block_shard.py:277-303 | Each parameter's chunks with their offsets in the ranks' rows, in rank order |
| QuantGradScales.BuildGradRegions | src/flex_shard/custom_placements/mxfp8_bucketed_block_shard.py:304-322 | The regions, tile row by tile row and chunk by chunk, parameter by parameter |
| QuantGradScales.GradSlice | src/flex_shard/custom_placements/mxfp8_bucketed_block_shard.py:277-322 | Where one tile row of one chunk's grid is in its rank's row |
| QuantGradScales.GradsGathered | src/flex_shard/custom_placements/mxfp8_bucketed_block_shard.py:277-322 | Joining the regions gives every parameter's whole tile grid in row-major order, in parameter order, for any split over ranks |
| QuantUnshard.PlanRanks | src/flex_shard/custom_placements/blockwise_quant_bucketed_block_shard.py:572-681 | Block-aligned chunks for every rank that have all rows once: no other contiguous division of the block rows has a smaller largest number of stored bytes of a rank, and no rank is empty if there are as many block rows as ranks |
| QuantBalance.DivisionFeasible | src/flex_shard/custom_placements/blockwise_quant_bucketed_block_shard.py:997-1005 | Any division of the block rows whose ranks' data, scales and input-gradient scales fit some number of bytes divides the units' costs within that number |
| QuantBalance.CutsAreBest | src/flex_shard/custom_placements/blockwise_quant_bucketed_block_shard.py:411-483 | Cutting at the smallest capacity is the best of all contiguous divisions of the block rows, counted in stored bytes |
| QuantUnshard.Unshard | src/flex_shard/custom_placements/blockwise_quant_bucketed_block_shard.py:1237-1318 | For any shapes, partial tails and ranks: pack, gather, compact and split give every parameter the data, scales and input-gradient scales of quantizing its whole matrix |
| BucketRows.ParamAlignment | src/flex_shard/custom_placements/block_shard.py:711-720 | The least number that every parameter's row size divides |
| BucketRows.ParamOffsets | src/flex_shard/custom_placements/block_shard.py:722-733 | Parameters are at aligned offsets, in order, without overlap |
| BucketRows.RankLayout | src/flex_shard/custom_placements/block_shard.py:735-754 | The ranks' ranges tile the padded bucket at aligned boundaries, in proportion to their blocks |
| BucketRows.BucketLayout | src/flex_shard/custom_placements/block_shard.py:771-800 | Offsets and ranges of any shapes and blocks make a layout that the results below hold for; the alignment is the least that every row size divides, and the bucket ends at the first whole number of blocks |
| BucketRows.PartIsRows | src/flex_shard/custom_placements/block_shard.py:756-768 | A rank's part of a parameter is whole rows, so neither alignment error can be raised |
| BucketRows.StoredOnce | src/flex_shard/custom_placements/block_shard.py:798-852 | Every element of every parameter is stored by exactly one rank |
| BucketRows.HasDataIs | src/flex_shard/custom_placements/block_shard.py:801-852 | A rank has data exactly if its range and some parameter share a position |
| BucketRows.LocalParts | src/flex_shard/custom_placements/block_shard.py:801-852 | It fails exactly for a rank whose nonempty range is padding only; else it gives the rank's part of every parameter |
| BucketGather.StoreParams | src/flex_shard/custom_placements/block_shard.py:859-879 | A rank's storage holds its parts of all parameters |
| BucketGather.NoPadding | src/flex_shard/custom_placements/block_shard.py:989-992 | If the gathered segments are as long as the bucket, they are the bucket |
| BucketGather.GatherBucket | src/flex_shard/custom_placements/block_shard.py:970-1012 | Every range arrives at its place of the bucket, with or without padded segments |
| BucketGather.AllGather | src/flex_shard/custom_placements/block_shard.py:988-997 | The rows of all ranks one after the other are the bucket when nothing is padded |
| BucketGather.ParamsRebuilt | src/flex_shard/custom_placements/block_shard.py:933-1050 | Storing, sending padded ranges and gathering rebuilds every parameter, whatever the padding holds |
| SegmentCopy.FindSplit | src/flex_shard/custom_placements/_copy_kernels.py:402-407 | The first doubling of the length with which the grid has room for all pieces; the loop ends |
| SegmentCopy.SplitSegments | src/flex_shard/custom_placements/_copy_kernels.py:385-433 | Raises exactly for more segments than the grid holds; else the pieces fit the grid and move what the segments move, none overlapping if the segments don't |
| SegmentCopy.CopySegments | src/flex_shard/custom_placements/_copy_kernels.py:436-461 | One launch writes what the segments say and nothing else |
| SegmentCopy.CopySegment | src/flex_shard/custom_placements/_copy_kernels.py:123-142 | A segment's programs write each of its elements; those past its end write nothing |
| ReduceCopyIn.SentOnce | src/flex_shard/custom_placements/block_shard.py:1299-1335 | What a place of the send rows must hold is unique |
| ReduceCopyIn.FillBucket | src/flex_shard/custom_placements/block_shard.py:1299-1316 | The gradient bucket has every gradient at its place and zeros between |
| ReduceCopyIn.PackSimple | src/flex_shard/custom_placements/block_shard.py:1299-1335 | The simple path fills every place of the padded send rows with the gradient element or zero that belongs there |
| ReducePlan.AddRow | src/flex_shard/custom_placements/block_shard.py:1099-1128 | A row's segments of all parameters, and the columns that they cover |
| ReducePlan.ReduceCopyInPlan | src/flex_shard/custom_placements/block_shard.py:1082-1144 | Each parameter's segments for all rows, and zero segments of exactly the columns that no parameter has |
| ReducePlan.ParamMoves | src/flex_shard/custom_placements/block_shard.py:1104-1117 | A parameter's segments move each element to its place in its rank's row, and nothing else |
| ReducePlan.WrittenOnce | src/flex_shard/custom_placements/block_shard.py:1082-1144 | Parameter and zero segments together write every element of the rows exactly once |
| ReducePack.PlanAlignment | src/flex_shard/custom_placements/block_shard.py:1129-1140 | The greatest common divisor of all offsets and lengths of the plan: its divisors are exactly their common divisors; one if none is above zero |
| ReducePack.ChooseUnit | src/flex_shard/custom_placements/block_shard.py:1194-1213 | The widest copy unit that divides the alignment and fits the tensors; there always is one |
| ReducePack.Descriptor | src/flex_shard/custom_placements/block_shard.py:1224-1240 | Segments in units, split for the grid, move element for element what the plan's segments move |
| ReduceOnePass.Descriptors | src/flex_shard/custom_placements/block_shard.py:1221-1242 | All descriptors of a plan exist exactly if every list fits the grid |
| ReduceOnePass.PackOnePass | src/flex_shard/custom_placements/block_shard.py:1160-1245 | Either fails before writing anything, exactly if a list doesn't fit the grid, or fills every place of the rows with what belongs there and changes nothing outside them |
| ReduceOnePass.PackingsAgree | src/flex_shard/custom_placements/block_shard.py:1299-1335 | The one-pass and the simple path send the same rows, element for element |
| MixedBucket.PlanGroupOffsets | src/flex_shard/custom_placements/mixed_bucket.py:1603-1657 | Groups that any one rank sends don't overlap, exclusive groups are aligned and lie before all shared ones, shared groups are aligned from there; owners overlay each other, every group is as close behind the one before of its owner as its alignment allows, and the row is no longer than needed |
| MixedBucket.SharedAligned | src/flex_shard/custom_placements/mixed_bucket.py:1603-1657 | When every alignment divides the largest, shared groups are aligned in the row, too |
| MixedRows.PaddingRanges | src/flex_shard/custom_placements/mixed_bucket.py:1454-1467 | Exactly the region that owners overlay and the columns that no shared group has |
| MixedRows.FillSendRow | src/flex_shard/custom_placements/mixed_bucket.py:618-641 | Every element of a rank's row is defined: each group it sends in its place, zero elsewhere |
| MixedRows.UnshardReads | src/flex_shard/custom_placements/mixed_bucket.py:697-762 | Unsharding a group reads, from the row of a rank that sends it, what that rank put in, though owners overlay one region |
| MixedRows.FillReduceRows | src/flex_shard/custom_placements/mixed_bucket.py:1217-1248 | The reduce's rows for all ranks: shared groups' parts in all, an owned group's in its owner's, zeros in the rest |
| MixedRows.FillReduceGroup | src/flex_shard/custom_placements/mixed_bucket.py:1229-1248 | One group is copied into the rows of the ranks that have a share in it, and into no other |
| MixedRows.GroupReduced | src/flex_shard/custom_placements/mixed_bucket.py:1300-1345 | A rank gets of each of its groups the reduction of that group's own elements over all ranks |
| Balancing.ListBound | src/flex_shard/custom_placements/owned.py:410-422 | Greedy loads in any order are within 2 - 1/m of the largest load of any assignment |
| Balancing.GreedyIsEven | src/flex_shard/custom_placements/owned.py:410-422 | Greedy loads differ by no more than the largest job |
| Balancing.LastBigFits | src/flex_shard/custom_placements/owned.py:410-422 | A last job of more than a third of the best assignment's largest load still fits within it, largest first |
| Balancing.LargestFirstBound | src/flex_shard/custom_placements/owned.py:410-422 | Largest first, greedy loads are within 4/3 - 1/(3m) of the largest load of any assignment |
| OwnerAssignment.AssignParamsToRanks | src/flex_shard/custom_placements/owned.py:393-422 | Every parameter, largest first and stably, goes to the first of the least loaded ranks at its turn, on top of the loads carried over; in the end a rank has at most as much, with what it carried, as any other rank would have with one of its parameters more |
| OwnerAssignment.OwnersNearBest | src/flex_shard/custom_placements/owned.py:393-422 | From zero loads, the largest load is within 4/3 - 1/(3m) of any assignment's |
| OwnerAssignment.OwnersEven | src/flex_shard/custom_placements/owned.py:393-422 | From zero loads, ranks' loads differ by no more than the largest parameter |
| BucketPlanner.AssignMatrices | src/flex_shard/dist_muon/bucket_planner.py:172-213 | A group's loads are even within its largest matrix and near the best, and the heavier goes to whoever had less, so that loads even within the largest matrix stay so |
| BucketPlanner.PairSlots | src/flex_shard/dist_muon/bucket_planner.py:188-198 | The heaviest slot is paired with the least loaded rank, and so on down |
| BucketPlanner.PairedIs | src/flex_shard/dist_muon/bucket_planner.py:188-198 | Every rank gets one slot, and of two slots the heavier one gets the rank that had no more |
| BucketPlanner.MatricesConserved | src/flex_shard/dist_muon/bucket_planner.py:172-213 | The loads grow by the group's matrices, none lost or counted twice |
| BucketPlanner.AssignBlocks | src/flex_shard/dist_muon/bucket_planner.py:215-229 | All blocks are given out, each rank's load grows by its blocks, and a rank that gets one has no more than any other eligible rank and one block |
| BucketPlanner.AssignGroups | src/flex_shard/dist_muon/bucket_planner.py:148-234 | Over all groups: each rank's load is that of the matrices and blocks that the result assigns to it, each group's matrices and blocks go to ranks that have least at their turn, total load is conserved, and loads are even within the largest matrix or block when all ranks are eligible |
| HostBalance.EvenFirstOnce | src/flex_shard/dist_muon/optimizer.py:1171-1176 | The positions put all even numbers first and keep the order of even and of odd ones |
| HostBalance.LeastKey | src/flex_shard/dist_muon/optimizer.py:1249-1268 | A member of least key |
| HostBalance.Choose | src/flex_shard/dist_muon/optimizer.py:1249-1268 | The host of least key, and of its partitions the one of least key |
| HostBalance.Balance | src/flex_shard/dist_muon/optimizer.py:1179-1269 | Fixed loads keep their partition, every other one goes, largest first, to a host and partition that have least then, and the cumulative loads are the initial ones and what was assigned |
| HostBalance.HostsEven | src/flex_shard/dist_muon/optimizer.py:1179-1269 | Without fixed loads, hosts' loads of one call differ by no more than the largest load |
| HostBalance.PartitionsEven | src/flex_shard/dist_muon/optimizer.py:1179-1269 | Without fixed loads, the loads of one host's partitions in one call differ by no more than the largest load |
| HostBalance.LoadConserved | src/flex_shard/dist_muon/optimizer.py:1179-1269 | Each partition's load is that of the loads assigned to it, and together they are all loads |
| GlobalLayouts.ComposeLayouts | src/flex_shard/flex_shard/placement_contract.py:111-146 | In any dimension, the composed chunks map a local index to a global one exactly if the inner layout maps it to one that the outer maps there; none is empty, and if neither layout has two chunks that share an index, nor has the composed one |
| GlobalLayouts.PairsApart | src/flex_shard/flex_shard/placement_contract.py:111-146 | Chunks made of different pairs of an outer and an inner chunk share no local and no global index when the layouts' own chunks don't |
| GlobalLayouts.OneToOneComposes | src/flex_shard/flex_shard/placement_contract.py:111-146 | If in both layouts every global index comes from at most one local index, so it does in the composed one |
| GlobalLayouts.ComposedTile | src/flex_shard/flex_shard/placement_contract.py:111-146 | If the outer layouts hold the tensor once, and the inner ones each part once, the composed ones hold every element at exactly one place of one rank |
| StackedLayout.UnravelIndex | src/flex_shard/custom_placements/blockwise_quant_bucketed_block_shard.py:105-110 | The row-major index of a number |
| StackedLayout.MatrixBox | src/flex_shard/custom_placements/blockwise_quant_bucketed_block_shard.py:1095-1105 | The box of one stacked matrix maps the rank's rows of that matrix, each to its place |
| StackedLayout.GlobalLayout | src/flex_shard/custom_placements/blockwise_quant_bucketed_block_shard.py:1077-1109 | A rank's boxes map its rows of the stacked parameter exactly to their places: one box for each matrix that the rows touch, none empty, no two sharing a local or a global index |
| StackedLayout.RanksTile | src/flex_shard/custom_placements/blockwise_quant_bucketed_block_shard.py:1077-1109 | The layouts of ranks whose row ranges follow each other hold every element of the stacked parameter once |
| ExpertParallel.PermutedIsPermutation | examples/deepseek_v3/expert_parallel.py:108-128 | The indices are a permutation of the received rows |
| ExpertParallel.PermutedAt | examples/deepseek_v3/expert_parallel.py:108-128 | A row of a rank's segment for an expert comes from the same place of that segment as received |
| ExpertParallel.ExpertContiguous | examples/deepseek_v3/expert_parallel.py:108-128 | Every local expert's rows are contiguous, in the experts' order |
| ExpertParallel.SplitsMatch | examples/deepseek_v3/expert_parallel.py:66-98 | Every rank's input splits are the others' output splits |
| ExpertParallel.Arrives | examples/deepseek_v3/expert_parallel.py:30-57 | What a rank sends arrives behind what the ranks before it send |
| ExpertParallel.RowReturns | examples/deepseek_v3/expert_parallel.py:100-106 | A row's expert output returns to where the row came from |
| ExpertParallel.CombineIsLocal | examples/deepseek_v3/expert_parallel.py:66-106 | For any group size and counts, dispatch, any per-expert row function and combine give on every rank what processing all rows with all experts gives, in the original order |
| ExpertParallel.OwnExpert | examples/deepseek_v3/model.py:309-340 | With the pairs sorted by expert, each row is processed by the expert of its pair |
| ExpertParallel.RoutedExpertsAgree | examples/deepseek_v3/model.py:309-340 | The experts' outputs for a rank's sorted pairs are the same with and without expert parallelism, each that of its pair's expert for its pair's token |
| RoutedExperts.ForwardAgrees | examples/deepseek_v3/model.py:309-340 | What the routed experts make of a rank's tokens is the same with and without expert parallelism; each token gets the sum over its top-K pairs of score times expert output, if summands can change places |
| RoutedExperts.ListedSum | examples/deepseek_v3/model.py:336-340 | In whatever order a token's pairs are added, their sum is the same |
| RoutedExperts.ScatterSums | examples/deepseek_v3/model.py:336-340 | The scatter-add gives every token the sum of its own pairs and nothing else |
| BucketRuntime.BucketContext.constructor | src/flex_shard/flex_shard/bucket_runtime.py:249-274 | A fresh context has nothing pending and no learned order, and no bucket is unsharded |
| BucketRuntime.BucketContext.BeginUnshard | src/flex_shard/flex_shard/bucket_runtime.py:749-792 | One more unshard is in flight; the first ones find their storage absent, a refill writes the bucket's storage |
| BucketRuntime.BucketContext.FinishUnshard | src/flex_shard/flex_shard/bucket_runtime.py:863-898 | The bucket holds data in allocated storage, and one unshard in flight is settled |
| BucketRuntime.BucketContext.ReleasePrefetch | src/flex_shard/flex_shard/bucket_runtime.py:398-406 | An unused prefetch is waited for and its storage freed |
| BucketRuntime.BucketContext.TakePending | src/flex_shard/flex_shard/bucket_runtime.py:375-396 | The wanted prefetch is taken out; the learned-order ones are released, or all if none is wanted |
| BucketRuntime.BucketContext.FinishOtherPrefetches | src/flex_shard/flex_shard/bucket_runtime.py:362-373 | Other buckets' learned-order prefetches are finished for those buckets |
| BucketRuntime.BucketContext.Prefetch | src/flex_shard/flex_shard/bucket_runtime.py:300-329 | A bucket becomes pending unless it is unsharded or pending already, or it follows the learned order and another such prefetch is pending |
| BucketRuntime.BucketContext.Unshard | src/flex_shard/flex_shard/bucket_runtime.py:843-861 | The bucket is unsharded from its prefetch or a new unshard, and exposed |
| BucketRuntime.BucketContext.Gather | src/flex_shard/flex_shard/bucket_runtime.py:843-861 | The bucket gets its data, from its prefetch if it has one |
| BucketRuntime.BucketContext.Expose | src/flex_shard/flex_shard/bucket_runtime.py:951-955 | The modules expose the unsharded parameters |
| BucketRuntime.BucketContext.NextForwardBucket | src/flex_shard/flex_shard/bucket_runtime.py:276-281 | The bucket after this one in the learned forward order |
| BucketRuntime.BucketContext.NextBackwardBucket | src/flex_shard/flex_shard/bucket_runtime.py:283-298 | The bucket that backward re-gathers next |
| BucketRuntime.BucketContext.PrefetchNext | src/flex_shard/flex_shard/bucket_runtime.py:1047-1060 | The explicit list if there is one, and else the next bucket of the learned order, is prefetched |
| BucketRuntime.BucketContext.Reshard | src/flex_shard/flex_shard/bucket_runtime.py:957-961 | The shards are exposed and the storage freed; the invariant holds afterwards exactly if no refill of the bucket is in flight |
| BucketRuntime.BucketContext.PostBackward | src/flex_shard/flex_shard/bucket_runtime.py:1176-1216 | Grads are reduced, or kept without sync, and the bucket resharded as set |
| BucketRuntime.BucketContext.ResetBackwardState | src/flex_shard/flex_shard/bucket_runtime.py:982-987 | The bucket's counts of the last backward are cleared |
| BucketRuntime.BucketContext.FinishBuckets | src/flex_shard/flex_shard/bucket_runtime.py:442-472 | Buckets left by backward are finished in the given order, and it raises at a deferred one left in a syncing backward |
| BucketRuntime.BucketContext.FinishBucket | src/flex_shard/flex_shard/bucket_runtime.py:442-472 | One of the buckets that backward left is finished, unless it is a deferred one that a syncing backward left, which raises |
| BucketRuntime.BucketContext.EndBackward | src/flex_shard/flex_shard/bucket_runtime.py:408-440 | At the end of a finishing backward nothing is pending and every bucket's counts are clear |
| BucketRuntime.BucketContext.FinalizeBackward | src/flex_shard/flex_shard/bucket_runtime.py:474-489 | Finalizing outside of backward leaves the context idle |
| BucketRuntime.BucketContext.Reset | src/flex_shard/flex_shard/bucket_runtime.py:504-522 | Every bucket is resharded and nothing is pending |
| BucketRuntime.BucketContext.ResetBucket | src/flex_shard/flex_shard/bucket_runtime.py:504-522 | One bucket is resharded and its counts cleared |
| BucketRuntime.BucketContext.PreForward | src/flex_shard/flex_shard/bucket_runtime.py:1265-1291 | The bucket is unsharded and exposed, learns its place the first time, and prefetches |
| BucketRuntime.BucketContext.PreForwardRecompute | src/flex_shard/flex_shard/bucket_runtime.py:1330-1342 | In a recomputed forward another bucket's prefetch is finished for that bucket |
| BucketRuntime.BucketContext.PostForward | src/flex_shard/flex_shard/bucket_runtime.py:1432-1512 | It reshards or counts the call; the invariant holds afterwards exactly if it keeps the data or no refill is in flight, and always while the forward's own unshard is in place |
| BucketRuntime.BucketContext.EndForward | src/flex_shard/flex_shard/bucket_runtime.py:1474-1512 | One bucket's call is counted for backward, or the bucket is resharded, at the end of a forward |
| BucketRuntime.BucketContext.PreBackward | src/flex_shard/flex_shard/bucket_runtime.py:997-1025 | The bucket is unsharded and exposed for backward, kept grads are reduced first if it was called more than once, and it prefetches |
| BucketRuntime.BucketContext.OnInputGrads | src/flex_shard/flex_shard/bucket_runtime.py:1124-1142 | One more trigger is counted; if none is missing, the post-backward runs and the counts restart, and TriggerIs says when |
| BucketRuntime.BucketContext.FinishDeferredBackward | src/flex_shard/flex_shard/flex_shard.py:215-235 | A deferred post-backward is run once |
| BucketRuntime.BucketContext.ReshardBucket | src/flex_shard/flex_shard/bucket_storage.py:902-915 | One bucket's prefetch is released and the bucket resharded |
| BucketRuntime.BucketContext.ReleasePendingUnshard | src/flex_shard/flex_shard/bucket_runtime.py:352-360 | The bucket's pending unshard, if any, is released |
| BucketRuntime.BucketContext.UnshardAll | src/flex_shard/flex_shard/flex_shard.py:183-213 | All buckets are unsharded and exposed, or started as explicit prefetches |
| BucketRuntime.BucketContext.Wait | src/flex_shard/flex_shard/bucket_runtime.py:191-207 | Waiting on the handle unshards the buckets that it started |
| BucketRuntime.BucketContext.Configure | src/flex_shard/flex_shard/bucket_storage.py:853-959 | A bucket's settings change, and nothing else |
| BucketSafety.TakeGood | src/flex_shard/flex_shard/bucket_runtime.py:375-396 | After taking, no learned-order prefetch is pending, nor the wanted one, and only the wanted one is in flight besides what stays |
| BucketSafety.UnshardGood | src/flex_shard/flex_shard/bucket_runtime.py:843-861 | Unsharding keeps the invariant and reshards no bucket; the bucket ends up unsharded, exposed and with storage |
| BucketSafety.NextForwardIs | src/flex_shard/flex_shard/bucket_runtime.py:276-281 | The next bucket is at the next place of the learned order, if there is one |
| BucketSafety.NextBackwardIs | src/flex_shard/flex_shard/bucket_runtime.py:283-298 | The backward prefetch is a bucket before this one that needs a re-gather, and no other such bucket lies between them |
| BucketSafety.ReshardIs | src/flex_shard/flex_shard/bucket_runtime.py:957-961 | Resharding keeps the invariant exactly if no refill of the bucket is in flight |
| BucketSafety.PostForwardIs | src/flex_shard/flex_shard/bucket_runtime.py:1474-1512 | The reshard after a forward doesn't check that the bucket is unsharded: it keeps the invariant exactly if it keeps the data or no refill is in flight |
| BucketSafety.BackwardSettles | src/flex_shard/flex_shard/bucket_runtime.py:408-440 | A finishing backward that doesn't raise leaves nothing pending and no counts |
| BucketSafety.FinalizeSettles | src/flex_shard/flex_shard/bucket_runtime.py:474-489 | Finalizing outside of backward leaves nothing pending and no counts |
| BucketSafety.ResetClears | src/flex_shard/flex_shard/bucket_runtime.py:504-522 | After a reset no bucket holds storage or is exposed, and nothing is in flight |
| BucketSafety.ReshardGood | src/flex_shard/flex_shard/bucket_storage.py:902-915 | Resharding a bucket after releasing its prefetch always keeps the invariant |
| BucketSafety.UnshardAllGood | src/flex_shard/flex_shard/flex_shard.py:183-213 | Unsharding all keeps the invariant, and all end up unsharded and exposed, or pending if that was asked for |
| BucketSafety.WaitGood | src/flex_shard/flex_shard/bucket_runtime.py:191-207 | Waiting on the handle of an asynchronous unshard keeps the invariant and reshards nothing |
| BucketTriggers.CountsAre | src/flex_shard/flex_shard/bucket_runtime.py:982-987 | In any run, a bucket's counts are the counted forward calls, those of them that carried a trigger, and the triggers that ran, since its counts restarted last |
| BucketTriggers.TriggerIs | src/flex_shard/flex_shard/bucket_runtime.py:1124-1142 | In any run, a trigger of a bucket runs its post-backward exactly if the bucket doesn't defer it and, since the counts restarted last, the counted forward calls, those of them with a trigger, and the triggers that ran with this one are equally many; otherwise its data, exposure and grads stay |
| BucketTriggers.KeptGradsReduced | src/flex_shard/flex_shard/bucket_runtime.py:998-1025 | In any run, a backward of a bucket first reduces the grads kept without sync exactly if it syncs, doesn't defer, and more than one forward call was counted |
| BucketTriggers.BackwardRaises | src/flex_shard/flex_shard/bucket_runtime.py:442-472 | In any run, a finishing backward raises exactly if some bucket syncs and defers, had a trigger run since its counts restarted, and is still unsharded or has grads to reduce |
| BucketTriggers.BackwardFinishes | src/flex_shard/flex_shard/bucket_runtime.py:442-472 | After a finishing backward a bucket keeps its data only if it neither syncs nor reshards after backward, and has grads left only if it doesn't sync |
| BucketTriggers.FinalizeFinishes | src/flex_shard/flex_shard/bucket_runtime.py:474-489 | Finalizing backward finishes every bucket in the same way |
| BucketTriggers.DeferredFinishes | src/flex_shard/flex_shard/flex_shard.py:215-235 | A deferred post-backward finishes its bucket in the same way and leaves the counts alone |
| BucketPrefetch.ForwardPrefetches | src/flex_shard/flex_shard/bucket_runtime.py:1047-1060 | Before a forward, what is newly in flight is of the bucket's forward list if it has one, and else the bucket whose forward came next; all of it is unsharded or in flight, unless a learned-order prefetch was in flight and there was nothing to gather |
| BucketPrefetch.BackwardPrefetches | src/flex_shard/flex_shard/bucket_runtime.py:1047-1060 | Before a backward, the same of the backward list, or else the last bucket before it that has to be gathered again |
| BucketPrefetch.UnshardSettles | src/flex_shard/flex_shard/bucket_runtime.py:362-403 | Unsharding a bucket leaves others' explicit prefetches in flight; others' learned-order ones are released, or finished in a recomputed forward, if the bucket is gathered |
| BucketPrefetch.WaitUnshards | src/flex_shard/flex_shard/bucket_runtime.py:191-207 | Waiting on the handle unshards and exposes the started buckets that are still in flight and leaves other explicit prefetches in flight |
| BucketSafety.ConfigureGood | src/flex_shard/flex_shard/bucket_storage.py:853-959 | Changing a bucket's gradient sync, resharding or prefetch lists keeps the invariant at any time and touches no data |
| BucketSafety.EventIs | src/flex_shard/flex_shard/bucket_runtime.py:211-1512 | Every hook, method call and change of settings keeps the invariant, except exactly a post-forward that reshards while a refill of its bucket is in flight |
| BucketSafety.RunIsGood | src/flex_shard/flex_shard/bucket_runtime.py:211-1512 | In every well-nested run, whatever settings change on the way: at most one learned-order prefetch is pending, no bucket is pending twice or while unsharded, no module exposes an unsharded parameter whose storage is freed, no unshard is lost or settled twice, and running forwards keep their data |
| BucketSafety.FreshIsGood | src/flex_shard/flex_shard/bucket_runtime.py:249-274 | A fresh context satisfies the invariant |
| BucketSafety.NestedForwardBreaks | src/flex_shard/flex_shard/bucket_runtime.py:1474-1512 | A concrete re-entrant forward: the invariant holds before its last event, and not after it |

## Left out

- Collectives, symmetric memory, streams and events of the device, process groups and meshes are their effects only: allocation, `record_stream`, buffer reservation and growth, cached views and rendezvous don't appear.
- Floating point: quantizing a tile, Newton-Schulz, reduction and casts are uninterpreted functions, and that summands can change places is a condition where it is used.
- The choice between the owner-rows transport and grouped broadcasts, made from environment variables and topology.
- Positions of the gathered owner rows that no parameter covers: nothing is claimed of their elements.
- What an exception in a callback leaves behind in the pipelined run, which the code calls fatal.
- The order in which the builders for shards find errors: they refuse a region out of bounds before they make routes, where the code makes them and then refuses the plan.
- Resolving DTensor placements to storage regions, and its rejections of unsupported layouts: the regions are inputs.
- RegionValidator.CheckCover: the expected regions must be disjoint and in bounds, which the plan check establishes first.
- The all-to-all over equal splits and the tensor-by-tensor copy variants of the packed kernels, which change speed only.
- The caches of quantized payloads, and re-deriving the unit cuts from a stored rank layout.
- QuantUnshard.Unshard: what the quantizer makes of a chunk of whole block rows is assumed to depend on each block row alone, which is the contract of tile quantizers.
- `BlockShard` outside of buckets: its padded pack and unpack are a simpler form of the bucketed ones.
- Using the gradient bucket itself as send rows when nothing is padded, data pointers and alignments of tensors: the copy unit takes a predicate that says which widths fit.
- Mixed buckets of exclusively owned groups that go through the owner-rows transport, and reinterpreting groups of different dtypes as bytes.
- Group buckets of several modules, `torch.compile`, gradients as values, dtypes and requires-grad flags in the bucket runtime.
- Manual finalization handles, and errors that stop training, other than a deferred bucket left in a syncing backward.
- `assign_to_hosts_then_ranks` and what builds on it, the hosts variant of the bucket planner among that, and the planner's validation of names and sizes.
- Row intervals per mesh axis, which only decide whether redistribution is needed at all.
