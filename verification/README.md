# Verified model of the serving patches

This project models, in Dafny, the stateful parts of the serving patches and proves what they rely on. It has four
parts.

**The align-mode mamba state engine** (`src/mamba_utils_guarded.py`). Each request alternates *prepare* (choose the
running block column, migrate the previous state with an accepted-token bias), *forward* (leave one speculative state
per draft token) and *accept* (keep some drafts, save the state at a block boundary, sometimes reset the accepted count
to 1).

* `AlignDecision` holds the index arithmetic, `AlignProgress` a run that reaches the cache, `AlignRun` the whole system:
  many requests over one pool of physical blocks, with a null block, a prefix cache, preemption, resumption, eviction
  and blocks taken back between steps. The recurrent layer is abstract: the temporal state is a fold over the tokens,
  the convolution a window of the last tokens, and the forward pass is a relation saying which states it leaves at which
  offsets.
* Below that lies the data movement. `LaneMachine` is a small machine in which the lanes of a launch load and store in
  any order (with an optional barrier between rounds); memory is one flat space of bytes. `TiledCopy`, `ConvShift`,
  `OverlapCopy` and `StateCopy` model the device functions as such programs and, where the source is a loop over raw
  memory, as methods over an array. `CopyGrid` and `PostprocessGrid` model whole launches, `Preprocess` the three
  implementations of the step's preparation. `EngineRefinement` joins the two levels: read through any codec, a launch
  over bytes has exactly the effect of the block copies that `AlignRun` performs. `EngineSimulation` closes the loop:
  from any state the engine can reach, the launch staged for a batch of preparations or acceptances meets the
  conditions of those theorems and leaves, over bytes, what the batch's steps leave.
* Hypotheses: block size at least 1; a step schedules at least `drafts + 1` tokens and accepts between 1 and
  `drafts + 1`; a request is admitted with an accepted count of 1; a prefix hit is a cached prefix, so a multiple of the
  block size; the window has room for the history and the drafts; a block's payload fits its stride, which is that of a
  page and may cover other states too; the bias of a convolution copy does not exceed the window; the block-table
  columns a program looks at are readable (the guard checks block ids, not columns).
* The launches further assume that the payload of the block one copy writes meets no payload that another copy of the
  launch reads or writes (`CopyGrid.CopiesApart`). Nothing is assumed about whole pools: tensors that are views into
  the same pages are covered (`CopyGrid.ViewsApart`), and so are states of different groups that share their memory
  but use different blocks. `EngineSimulation` derives the condition from the engine's invariant for one group whose
  states keep apart.

**The never-evict pin** (`src/patch_never_evict.py`). `PinnedPool` is the block pool as a value with the functions of
its operations, `PinnedRuns` whole runs, `PoolQueues` what each operation leaves in the queues and in which order,
`BlockPool` the mutable object (each method proved equal to the function), `PinScheduler` the marker search, the keys a
prompt pins, and re-arming. The stock pool's text is not part of this model; of it only what the patch's anchors and its
self-check show is used: allocation takes from the head of the free queue and drops the hash, a freed block goes to the
front of the queue without a hash and to its end with one, touching takes a block out of its queue, a reset succeeds if
only the null block is missing from the free queue. Callers free a block once in a batch and only blocks in use, and
hash only blocks in use.

**The row table and its prefetch** (`src/vllm_ple_mmap.py`). `PleTable` models the gathers and the accepted shard
layout, `PlePrefetch` the double-buffered protocol between the host, one worker thread and a GPU stream that executes
later but in order. Every copied element is a separate step, so reads and writes of the shared buffers interleave
freely. A wait that times out is a wait that finds the job unfinished.

**Quantisation, the drafter's head and the head repack** (`src/patch_mtp_draft_vocab.py`, `tools/`). `Packing` has the
two word packers, `Gptq` one group of weights over the reals, `GptqHead` whole matrices and the shape-driven row reader,
`DraftHead` the row selection, chunked build and scatter, `HeadRepack` the file protocol with a crash possible between
any two file operations and inside every write.

Five properties one might expect are false, and are stated as such:

* A consume can hit for an older call: a prefetch that is refused leaves the pending job in place, and the consume
  compares only row counts. `PlePrefetch.StaleHit` gives the run, `PlePrefetch.HitIsLatestIffAccepted` the exact
  condition over whole runs: the branch the last call took. For a caller that asks for as many rows as it last called
  for, only the stuck slot remains (`PlePrefetch.StaleOnlyIfRefused`). What a hit delivers is always right for its own
  job.
* A skipped re-arm is not always a no-op: the scheduler's memory of the last armed keys survives a reset of the pool.
  `PinScheduler.ResetThenSkip` gives the run, `PinScheduler.SkippedReArm` the exact condition.
* The 8-bit head's layout cannot always be read back from its shapes: `GptqHead.EightBitShape` gives the exact
  condition on the number of outputs, `GptqHead.FiveOutputs` a shape that is misread.
* A large gather whose caller claims distinct ids can answer for an id that has no row, because only the first and the
  last id are tested and a negative shard number counts from the end. `PleTable.AsIsCanMisread` gives the table and
  the ids, `PleTable.AsIsRightIff` the exact condition. The one caller that makes the claim passes ascending ids, for
  which the gather is right.
* A row of no slot (-1 in the index mapping) is not skipped everywhere: the copy and the postprocess launch skip it
  (`Preprocess.NoSlotNoTask`), the preparation kernel has no such test and its lane strays out of the arrays if and
  only if the mapping has such a row (`Preprocess.SlotState.PreprocessAlign`).

In the same spirit `OverlapCopy.MemmoveExactlyWhen` says exactly when the batched memcpy is a memmove, and
`PostprocessGrid.RaceWithoutSnapshot` shows that the snapshot of the accepted counts is needed.

## Model

| member | source | states |
|---|---|---|
| LaneMachine.AnyScheduleMoves | src/mamba_utils_guarded.py:602-616 | when no byte is stored twice and no byte is stored before its readers have loaded it (by lane order or barrier), every complete interleaving performs all accesses on the original memory |
| LaneMachine.NoDeadlock | src/mamba_utils_guarded.py:602-616 | some lane can always move until all are done, and the barrier blocks nobody for ever |
| LaneMachine.MovedIsCopied | src/mamba_utils_guarded.py:61-119 | accesses that together cover some regions, and nothing else, leave exactly the copied regions |
| TiledCopy.PiecesPartition | src/mamba_utils_guarded.py:61-119 | head, words and tail (or bytes) give each byte to exactly one lane and none outside, for all addresses and sizes |
| TiledCopy.WordsAligned | src/mamba_utils_guarded.py:64-94 | every 64-bit access is 8-aligned at source and destination |
| TiledCopy.ShareOf | src/mamba_utils_guarded.py:83-94 | a tile walks exactly the items it owns, for every item, tile and vector count |
| TiledCopy.OwnerIsTile | src/mamba_utils_guarded.py:77-114 | the owner of every lane is one of the tiles |
| TiledCopy.MemcpyU64Tiled | src/mamba_utils_guarded.py:39-119 | one tile copies exactly the bytes it owns and leaves every other byte alone |
| TiledCopy.RunTiles | src/mamba_utils_guarded.py:39-119 | the tiles in any order copy the whole range and nothing else, for disjoint or identical ranges |
| TiledCopy.TiledAnySchedule | src/mamba_utils_guarded.py:39-119 | so does every interleaving of the lanes of all tiles |
| ConvShift.SlideTokens | src/mamba_utils_guarded.py:282-295 | the token loop shifts the window in place: a memmove of the kept tokens |
| ConvShift.SlideAnySchedule | src/mamba_utils_guarded.py:282-295 | so does every lane interleaving, for every bias, token size and alignment |
| ConvShift.RowsAnySchedule | src/mamba_utils_guarded.py:212-251 | the dim-first rows are each shifted by the bias, in place or across blocks, for every lane interleaving and element size |
| OverlapCopy.BatchAnySchedule | src/mamba_utils_guarded.py:602-616 | one barrier a round suffices: unless the destination overlaps the source from the right, every interleaving is a memmove |
| OverlapCopy.MemmoveExactlyWhen | src/mamba_utils_guarded.py:595-616 | and it is one for every memory and schedule if and only if there is no such overlap |
| OverlapCopy.BatchMemcpyKernel | src/mamba_utils_guarded.py:595-616 | the kernel's rounds on an array: the destination holds the original source, nothing else changes |
| OverlapCopy.BatchGridAnySchedule | src/mamba_utils_guarded.py:595-626 | a whole list of separate copies, all programs interleaved, is performed on the original contents |
| StateCopy.AllTilesOrNone | src/mamba_utils_guarded.py:183-208 | for arbitrary block ids a copy runs in all its tiles or in none, and a guard hit is counted exactly when it is skipped |
| StateCopy.HitCount | src/mamba_utils_guarded.py:259-304 | how many hits a skipped copy counts: one, or one a tile |
| StateCopy.GuardExactly | src/mamba_utils_guarded.py:192-302 | in numbers: a tile counts a hit if and only if the destination id is below 0 or not below the number of blocks, or it has lanes of the copy and the source id is; it runs exactly when both ids are in range and it has lanes |
| StateCopy.GuardConfines | src/mamba_utils_guarded.py:183-317 | past the guard both ids are at least 0 and below the number of blocks, and every byte loaded or stored lies in the payloads of these two blocks: not in the rest of a page, not before the pool, not behind the last payload |
| StateCopy.CopyAnySchedule | src/mamba_utils_guarded.py:122-317 | every interleaving of all tiles and lanes moves exactly the copy's regions |
| StateCopy.CopyMeaning | src/mamba_utils_guarded.py:150-160 | the destination block becomes the shifted source block (the whole temporal block, or the window moved by the bias with its own last tokens kept), every other block is unchanged, in both layouts; what a block is, byte by byte, is stated below |
| StateCopy.TemporalIsBytes | src/mamba_utils_guarded.py:305-309 | the contents of a temporal block are the inner size times element size bytes from base + id * stride |
| StateCopy.WindowIsBytes | src/mamba_utils_guarded.py:263-271 | token t of a token-contiguous window is the inner size times element size bytes from base + id * stride + t * (inner * elem) |
| StateCopy.RowsAreBytes | src/mamba_utils_guarded.py:218-229 | dim-first, element t of row r is the element size bytes from base + id * stride + r * row stride + t * elem |
| StateCopy.TemporalBytes | src/mamba_utils_guarded.py:298-317 | after every complete schedule of a temporal copy byte j of the destination is byte j of the source for all j below inner * elem, and every other byte of memory is as before |
| StateCopy.WindowBytes | src/mamba_utils_guarded.py:253-296 | after every complete schedule of a window copy, also onto itself, token t is the old token t + bias, whole, and every other byte is as before |
| StateCopy.RowBytes | src/mamba_utils_guarded.py:199-251 | dim-first, element t of every row is the old element t + bias |
| StateCopy.OtherRowBytes | src/mamba_utils_guarded.py:199-251 | and every byte outside the rewritten elements is as before |
| AlignDecision.RunningColumnBounds | src/mamba_utils_guarded.py:1446-1461 | the running column ends at or after the last scheduled token and starts before it |
| AlignDecision.SeedColumnBounds | src/mamba_utils_guarded.py:1440-1443 | the seed column holds the last computed token, for every number of computed tokens; there is none before the first |
| AlignDecision.SeedOfHit | src/mamba_utils_guarded.py:1440-1443 | a hit that is a multiple of the block size seeds the column that ends at the hit |
| AlignDecision.SaveSound | src/mamba_utils_guarded.py:409-432 | a save's column ends inside the accepted tokens and after the tokens computed before; it is never right of the running column, and is the running column exactly when all drafts were accepted and the sequence ends on a boundary; the reset then loses no progress |
| AlignDecision.SavesWhen | src/mamba_utils_guarded.py:409-418 | a step saves if and only if some block boundary lies between the running state and the accepted tokens |
| AlignDecision.AdvancedAgrees | src/mamba_utils_guarded.py:399-412 | both ways of feeding the counts give the same decision |
| AlignRun.AddressedStateCorrect | src/mamba_utils_guarded.py:150-160 | in every reachable state of every run, the state addressed by (column, accepted - 1) is the state after exactly the computed tokens, temporal state and convolution history alike |
| AlignRun.CachedStateCorrect | src/mamba_utils_guarded.py:409-432 | every cached block is, at every moment, the state after exactly its prefix |
| AlignRun.SavedForever | src/mamba_utils_guarded.py:413-422 | a saved column holds the state after exactly (j + 1) * block size tokens and keeps all its contents until the column is given up |
| AlignProgress.SaveRecorded | src/mamba_utils_guarded.py:413-432 | an acceptance that decides to save leaves its destination recorded, its block holding the state after exactly (dest + 1) * block size of the computed tokens |
| AlignProgress.ReachesCache | src/mamba_utils_guarded.py:409-432 | such states are reached: from every start a request of one block of tokens is computed, saves and becomes a cached prefix |
| AlignRun.RunIs | src/mamba_utils_guarded.py:150-160 | the temporal state is the initial one before the first token and takes one step of the layer for each further token |
| AlignRun.HistoryIs | src/mamba_utils_guarded.py:153-155 | the convolution history is the last tokens, one by one, padded before the first |
| AlignRun.CompleteColumnsUntouched | src/mamba_utils_guarded.py:1446-1461 | no step of any request writes a block that some request holds in a complete column |
| AlignRun.CachedBlocksUntouched | src/mamba_utils_guarded.py:1446-1461 | nor a block that is cached |
| AlignRun.NextKeepsInv | src/mamba_utils_guarded.py:1438-1483 | every step keeps the invariant behind these results |
| AlignRun.BehaviorInv | src/mamba_utils_guarded.py:1438-1483 | it holds throughout every run |
| AlignRun.MigrationReady | src/mamba_utils_guarded.py:561-569 | the migration always finds its source and destination columns |
| AlignRun.SaveReady | src/mamba_utils_guarded.py:422-457 | so does the save |
| AlignRun.ForwardExists | src/mamba_utils_guarded.py:150-160 | a forward pass with the assumed effect exists in every such state, so the relation blocks no run |
| CopyGrid.GridAnySchedule | src/mamba_utils_guarded.py:506-592 | all programs, tiles and lanes of a launch, interleaved in any way, perform all copies on the original contents, also when states share pages |
| CopyGrid.GridShiftsBlock | src/mamba_utils_guarded.py:506-592 | each destination block then holds its shifted source block |
| CopyGrid.GridKeepsBlock | src/mamba_utils_guarded.py:506-592 | and a block that no copy writes to is untouched |
| CopyGrid.ViewsApart | src/mamba_utils_guarded.py:957-1004 | state tensors that are views into the same pages, each at its own place inside a page, never meet: no block of one overlaps a block of another |
| CopyGrid.ApartById | src/mamba_utils_guarded.py:183-204 | then private block ids are all that a launch needs |
| PostprocessGrid.AnyOrderSameResult | src/mamba_utils_guarded.py:1200-1244 | because the programs read a snapshot, every interleaving of the launch makes the same decisions, leaves the counts the decisions say, the same memory and the same number of guard hits |
| PostprocessGrid.HitsExactly | src/mamba_utils_guarded.py:190-304 | which programs of the launch count a hit, in numbers: those whose decision copies and whose block ids are out of range where they look |
| PostprocessGrid.CounterStaysIff | src/mamba_utils_guarded.py:190-194 | in every interleaving the guard counter stays as it was if and only if every copy that a decision asks for is performed |
| PostprocessGrid.RaceWithoutSnapshot | src/mamba_utils_guarded.py:424-428 | without the snapshot a program can see the count another one has reset and decide differently |
| EngineRefinement.LaunchRefinesCopies | src/mamba_utils_guarded.py:506-592 | any schedule of a launch over bytes reads like performing the requests' state copies one after another on the blocks read before: in every block that no other state's copy writes into, in all blocks if the states keep apart |
| EngineRefinement.PrecopyRefines | src/mamba_utils_guarded.py:551-592 | so the preparation's launch, on any arrays in which each row finds its move, performs exactly the rows' migrations |
| EngineRefinement.StagedPrecopyRefines | src/mamba_utils_guarded.py:1485-1495 | in particular on the runner's staging arrays |
| EngineRefinement.SlotPrecopyRefines | src/mamba_utils_guarded.py:551-592 | and on the slot kernel's arrays, read through the mapping |
| EngineRefinement.PostprocessRefines | src/mamba_utils_guarded.py:399-457 | and every interleaving of the postprocess launch performs exactly the saves its decisions ask for |
| EngineSimulation.BatchApart | src/mamba_utils_guarded.py:183-204 | copies of different requests that keep to their own blocks keep apart in all states of the group |
| EngineSimulation.RunnerStages | src/mamba_utils_guarded.py:1438-1483 | the runner stages a row that describes a request with exactly the move that the request's step decides on |
| EngineSimulation.PreparationSimulates | src/mamba_utils_guarded.py:506-592 | whatever run has led to the batch: any schedule of the copy launch staged for the preparations of different requests leaves a memory that reads like the engine's after those steps; privacy, readable columns and valid ids are derived from the invariant |
| EngineSimulation.AcceptanceSimulates | src/mamba_utils_guarded.py:320-457 | any interleaving of the postprocess launch staged for the acceptances leaves the engine's memory and accepted counts after those steps, and no guard hit |
| Preprocess.Runner.Cleanup | src/mamba_utils_guarded.py:1345-1360 | finished, preempted and resumed requests lose their recorded column, nobody else |
| Preprocess.Runner.Collect | src/mamba_utils_guarded.py:1288-1331 | one entry per state is appended, and none for a copy that would change nothing |
| Preprocess.Runner.PrepareRow | src/mamba_utils_guarded.py:1438-1483 | one row: the new column is recorded; a move is staged or listed with its bias and resets the count |
| Preprocess.Runner.PreprocessMamba | src/mamba_utils_guarded.py:1393-1497 | all rows: columns, counts, staging arrays and copy list are those of the rows' moves; the step closes with the launch on the staged entries, with the memcpy over the list, or with nothing |
| Preprocess.ColumnsAfterAre | src/mamba_utils_guarded.py:1438-1463 | each row's request has its running column recorded, every other entry is as before |
| Preprocess.Runner.StagePostprocess | src/mamba_utils_guarded.py:1603-1649 | every row's column and counts are staged in its own place and handed to the device; it fails exactly when a row has no recorded column |
| Preprocess.SlotState.PreprocessAlign | src/mamba_utils_guarded.py:461-503 | the slot kernel publishes each row's old column and bias, advances its column, resets its count if the column moved, and leaves all other slots; a lane strays out of the arrays if and only if some row has no slot |
| Preprocess.NoSlotNoTask | src/mamba_utils_guarded.py:552-556 | the copy launch skips a row of no slot in all its programs |
| Preprocess.DecisionsAgree | src/mamba_utils_guarded.py:485-503 | from the same columns, counts and tokens, the staging arrays and the slot arrays give every program of the copy launch the same task, that of the row's move, in all tiles, for any block ids and both layouts; and all three paths leave the same columns and counts |
| Preprocess.ListIsRegions | src/mamba_utils_guarded.py:1299-1331 | the copy list names exactly the regions of the launch's copies |
| Preprocess.SameMemory | src/mamba_utils_guarded.py:1485-1497 | all three paths leave the same columns, counts and memory, byte for byte: any schedule of the batched memcpy over the list, of the launch on the staging arrays, and of the launch on the slot arrays |
| PinnedPool.AllocateExactly | src/test_never_evict_pin.py:28-32 | an allocation succeeds exactly when the free queue is long enough; the ids are its head, distinct, were unused and in no other queue, have one reference and no hash now, and none is named by a reservation; no other block changes |
| PinnedPool.AllocateKeepsValid | src/patch_never_evict.py:126-139 | allocation keeps each block in exactly one of free queue, pin queue and use, and every reservation with its block |
| PinnedPool.TouchKeepsValid | src/patch_never_evict.py:166-174 | so does touching, which loans pinned blocks out and keeps their reservation |
| PinnedPool.FreeKeepsValid | src/patch_never_evict.py:147-156 | so does freeing, where the pin claims blocks one after another |
| PinnedPool.SetPinnedKeepsValid | src/patch_never_evict.py:227-264 | so does replacing the pin set, for every set and cap |
| PinnedPool.ReplaceReturnsExactly | src/patch_never_evict.py:244-264 | replacing keeps exactly the wanted blocks of the pin queue, in order, up to the cap; the others reach the end of the free queue, each once; the reservations are those of the kept blocks |
| PinnedPool.ResetOnlyBlockedByUse | src/patch_never_evict.py:181-184 | a reset drops the whole pin and succeeds if and only if no block is in use |
| PinnedPool.Conservation | src/patch_never_evict.py:126-139 | free, pinned and used blocks are disjoint, cover the pool, and their numbers add up to it |
| PoolQueues.TouchExactly | src/patch_never_evict.py:162-176 | touching adds one reference for each time a block is named and takes the named blocks out of both queues; the rest of the queues keeps its order, nothing else changes |
| PoolQueues.FreeExactly | src/patch_never_evict.py:143-158 | freeing drops one reference each; blocks nobody uses any more go, in the order given, to the head of the free queue without a hash, else to the end of the pin queue or of the free queue; a block is claimed exactly when it ends up as the holder of its hash, and a pinned block that is not claimed found its hash held or the cap reached |
| PoolQueues.SetPinnedExactly | src/patch_never_evict.py:237-264 | the same set and cap change nothing; otherwise the wanted blocks stay, the first ones of the queue and all if the cap has room, the others go to the end of the free queue in their order, and the reservations are those of the blocks that stay |
| PoolQueues.CapIs | src/patch_never_evict.py:237-237 | the cap is the whole part of the fraction of the pool, but at least one block |
| PoolQueues.MarkedIsPinned | src/test_never_evict_pin.py:14-26 | a block handed out, hashed with a pinned hash that nobody holds and freed is in the pin queue as the holder, when the cap has room |
| PinnedRuns.ReachableConserves | src/patch_never_evict.py:126-139 | all of this after any run from a new pool, with no more reservations than the cap |
| PinnedRuns.PinnedSurvives | src/patch_never_evict.py:166-225 | over any run without re-arming or reset a reserved hash stays with its block, the block keeps its hash, and is among the ids of no allocation |
| PinnedRuns.ReservedHome | src/patch_never_evict.py:135-138 | a reserved block sits in the pin queue exactly when no request uses it |
| PinnedRuns.ReservedIsHeldPlusLoaned | src/patch_never_evict.py:266-272 | reserved blocks are those held in the pin queue plus those on loan |
| PinnedRuns.LoanRoundTrip | src/test_never_evict_pin.py:34-39 | loaning a pinned block and freeing it restores the pool but for its place in the pin queue |
| PinnedRuns.AllocateFreeRestores | src/test_never_evict_pin.py:28-32 | blocks allocated and freed at once return to the head of the free queue in order; only their hashes are lost |
| PinnedRuns.FreedIsClaimed | src/patch_never_evict.py:195-225 | a freed unused block with a pinned hash leaves that hash reserved unless the cap is reached |
| BlockPool.BlockPool.constructor | src/patch_never_evict.py:123-139 | the new pool: no references, no hashes, every block but the null block in the free queue in order, nothing pinned |
| BlockPool.BlockPool.GetNewBlocks | src/test_never_evict_pin.py:12-31 | returns ids if and only if the free queue has that many; the ids were its head and have left it, are distinct, go from no reference to one, lose their hash and are named by no reservation; no other block and no other field changes |
| BlockPool.BlockPool.Touch | src/patch_never_evict.py:166-174 | each touched block leaves the queue it is in |
| BlockPool.BlockPool.AcquirePin | src/patch_never_evict.py:195-225 | claims a block exactly when its hash is pinned and it holds the reservation, or nobody does and the cap has room; then it is the holder and last in the pin queue |
| BlockPool.BlockPool.Unclaimed | src/patch_never_evict.py:147-154 | the offered blocks that stay, in order, after one claim each |
| BlockPool.BlockPool.FreeBlocks | src/patch_never_evict.py:147-156 | references dropped, pinned blocks claimed, the rest at the two ends of the free queue |
| BlockPool.BlockPool.SetPinnedHashes | src/patch_never_evict.py:227-264 | the pin queue is sorted out by the new set and cap |
| BlockPool.BlockPool.ResetPrefixCache | src/patch_never_evict.py:181-184 | drops the pin, then forgets all hashes if nothing is in use |
| BlockPool.BlockPool.Perform | src/patch_never_evict.py:143-264 | each operation of a run is what the object's method does, so the results over whole runs are about the object |
| BlockPool.BlockPool.GetPinStats | src/patch_never_evict.py:266-272 | reservations, held blocks, and for each group exactly its number of reservations |
| PinScheduler.ContainsSubseq | src/patch_never_evict.py:297-315 | true if and only if the needle is not empty and occurs as a contiguous run |
| PinScheduler.WantsExactly | src/patch_never_evict.py:418-442 | a key is wanted if and only if its group caches prefixes, its block size is a whole number of fine blocks, and it is the hash, or the combination of the fine hashes in order, of a block that is full of prompt tokens and fully hashed |
| PinScheduler.GroupKeys | src/patch_never_evict.py:418-442 | a group pins exactly the keys of its blocks that are full of prompt tokens and fully hashed, and none if it cannot be cached or its block size does not fit |
| PinScheduler.Scheduler.Arm | src/patch_never_evict.py:407-464 | a marked request pins exactly its wanted keys and remembers them, unless they were the ones armed last: then nothing changes |
| PinScheduler.SkippedReArm | src/patch_never_evict.py:444-454 | in every reachable state a skipped re-arm finds the pool pinning exactly those keys if and only if no reset came in between or there is nothing to pin; without a reset the call would have changed nothing |
| PinScheduler.ResetThenSkip | src/patch_never_evict.py:444-449 | arm, reset, same prompt again: nothing is pinned |
| PleTable.UniqueFacts | src/vllm_ple_mmap.py:201-201 | the distinct ids are ascending and the same ids |
| PleTable.ExpandUnique | src/vllm_ple_mmap.py:447-467 | gathering the distinct ids and expanding them is gathering, errors included |
| PleTable.GatherInline | src/vllm_ple_mmap.py:177-196 | the small-batch path is row by row indexing, or an error exactly when some id has no row |
| PleTable.BuildTasks | src/vllm_ple_mmap.py:211-218 | the tasks tile the output in order and none crosses a shard |
| PleTable.TileAt | src/vllm_ple_mmap.py:211-218 | every output row belongs to exactly one task |
| PleTable.RunTask | src/vllm_ple_mmap.py:220-227 | a task fills exactly its own rows, or raises exactly when its shard is missing or too short |
| PleTable.AnyOrderGathers | src/vllm_ple_mmap.py:229-233 | in every interleaving of the pool's workers some task raises if and only if indexing errs, and otherwise the rows are those of indexing |
| PleTable.WorkersGoOn | src/vllm_ple_mmap.py:229-233 | until every task has ended some worker can go on, so such interleavings exist |
| PleTable.GatherTasks | src/vllm_ple_mmap.py:203-234 | the path cut at the shards takes the ids as they come; for ascending ids that is row by row indexing |
| PleTable.Gather | src/vllm_ple_mmap.py:173-234 | all three paths are row by row indexing, unless a large batch is claimed distinct and is not ascending |
| PleTable.AsIsRightIff | src/vllm_ple_mmap.py:203-209 | then it errs only where indexing errs, and an answer is right if and only if no id is negative |
| PleTable.AsIsCanMisread | src/vllm_ple_mmap.py:203-227 | a table and three ids for which it answers with a wrong row |
| PleTable.Forward | src/vllm_ple_mmap.py:447-467 | so is the embedding's forward pass |
| PleTable.SetupTable | src/vllm_ple_mmap.py:757-798 | a table is accepted if and only if exactly the expected shards are there with exactly the expected rows |
| PleTable.SharesAre | src/vllm_ple_mmap.py:759-790 | the expected rows: full shares of the ceiling, then what is left, then nothing |
| PleTable.AcceptedIndexes | src/vllm_ple_mmap.py:780-793 | an accepted table is its shards one after another: every id of the vocabulary has its row, every other id is an error |
| PleTable.AcceptedGathers | src/vllm_ple_mmap.py:780-793 | so a gather over an accepted table is indexing its shards laid end to end, and errs exactly when an id is outside the vocabulary |
| PlePrefetch.NextKeepsInv | src/vllm_ple_mmap.py:292-338 | every step of host, worker and stream keeps the protocol's invariant |
| PlePrefetch.HitsDeliverTheirJob | src/vllm_ple_mmap.py:292-338 | in every interleaving a hit delivers exactly the gather of the ids submitted with its job, and never anything else on the way |
| PlePrefetch.HitIsLatestIffAccepted | src/vllm_ple_mmap.py:296-303 | over whole runs: a hit hands out the job of the last prefetch call, and so the ids of that call, if and only if that call was not empty, fitted the slot and did not find it stuck; otherwise an earlier call created the job |
| PlePrefetch.StaleOnlyIfRefused | src/vllm_ple_mmap.py:330-334 | a consume that asks for as many rows as the last call had gets the rows of another call only if that call found its slot stuck |
| PlePrefetch.CreatorOf | src/vllm_ple_mmap.py:307-312 | every job was created by one step, a prefetch call for its ids |
| PlePrefetch.OfferedOnce | src/vllm_ple_mmap.py:330-334 | a consume uses the pending job up, hit or miss: it hits only if no consume at all lies between the call that created the job and it |
| PlePrefetch.MissesUntilStarted | src/vllm_ple_mmap.py:330-334 | after a consume every further one misses, whatever it asks for, until a prefetch call has started a job |
| PlePrefetch.StaleHit | src/vllm_ple_mmap.py:301-303 | a refused call followed by a consume can deliver an older call's rows |
| PlePrefetch.NoStepFaults | src/vllm_ple_mmap.py:314-328 | no step indexes out of a buffer, and worker and stream can always go on |
| PlePrefetch.PrefetchingTable.Prefetch | src/vllm_ple_mmap.py:292-312 | every batch that fits turns to the other slot; a job is numbered, queued, streamed and pending exactly if the slot's last one is done; else nothing else changes |
| PlePrefetch.PrefetchingTable.Consume | src/vllm_ple_mmap.py:330-338 | nothing is pending afterwards, hit or miss; it hits exactly when the pending job has the wanted size and ended well, and then its rows are streamed; a miss changes nothing else |
| Packing.ShiftSumIs | tools/quantize_mtp_experts_int4.py:41-42 | adding shifted digits in 32 bits cannot wrap and is the little-endian word |
| Packing.UnpackPackWord | src/patch_mtp_draft_vocab.py:166-168 | shifting and masking the unsigned word gives back every digit of both packers, negative words included |
| Gptq.PickIs | tools/quantize_lm_head_int8.py:47-52 | both pickers choose an element of largest magnitude |
| Gptq.PickTies | tools/quantize_mtp_experts_int4.py:32-33 | of several elements of largest magnitude the 4-bit quantiser takes the first, the 8-bit one a positive one if there is any |
| Gptq.GroupError | tools/quantize_mtp_experts_int4.py:33-38 | a restored weight is off by at most one step plus the slack of the rounded scale, and by half a step unless its nearest step has no code |
| Gptq.ZeroGroupComesBack | tools/quantize_lm_head_int8.py:53-56 | an all-zero group is stored with scale 0 and the zero code, and comes back as zeros |
| Gptq.RequantiseSame | tools/quantize_mtp_experts_int4.py:28-54 | quantising a restored group gives the same scale and codes |
| GptqHead.LayoutFound | src/patch_mtp_draft_vocab.py:155-164 | the layout read off the shapes is the one that was written, zero point included |
| GptqHead.EightBitShape | tools/quantize_lm_head_int8.py:56-71 | for 8 bits the shapes give the right number of input features if and only if out % 4 < out / 4 |
| GptqHead.FiveOutputs | tools/quantize_lm_head_int8.py:56-71 | with 5 outputs and 128 inputs the reader finds 6-bit codes and 160 inputs |
| GptqHead.RowsOfQuantized | src/patch_mtp_draft_vocab.py:166-171 | reading any rows of a quantised matrix gives the converted value of exactly the codes and scales that were written |
| GptqHead.DigitBack | tools/quantize_mtp_experts_int4.py:39-42 | the code of input k is digit k mod 8 (or 4) of word k / 8 (or 4) of its output's column, lowest digit first |
| GptqHead.ZeroDigits | tools/quantize_mtp_experts_int4.py:43-43 | every digit of the word of zero points is 7, or 127: the code of zero minus one |
| GptqHead.RestoredError | tools/quantize_mtp_experts_int4.py:48-54 | every weight of the matrix read back is within the bound of its group |
| GptqHead.ExactScaleError | tools/quantize_mtp_experts_int4.py:33-38 | in numbers: with an unrounded scale a weight comes back within an eighth, or a 128th, of the largest magnitude of its group |
| GptqHead.RequantiseIsFixpoint | tools/quantize_mtp_experts_int4.py:28-45 | quantising the restored matrix writes the same words, zeros and scales again, when every rounded scale is a fixpoint of the rounding and close to the exact one |
| GptqHead.ExactScalesHold | tools/quantize_mtp_experts_int4.py:34-37 | in exact arithmetic that hypothesis always holds |
| DraftHead.Kept | src/patch_mtp_draft_vocab.py:77-78 | the ids kept are exactly those of the file that lie in the vocabulary |
| DraftHead.Padded | src/patch_mtp_draft_vocab.py:79-80 | padding reaches a multiple of 64 by fewer than 64 copies, keeps the ids as a prefix and adds no new id |
| DraftHead.AnyOrderSpreads | src/patch_mtp_draft_vocab.py:50-51 | however the column copies are ordered, and with repeated ids, each kept word has its own score and every other word minus infinity |
| DraftHead.Drafter.CopyRows | src/patch_mtp_draft_vocab.py:93-98 | the chunks together hold every selected row once, in order |
| DraftHead.Drafter.Build | src/patch_mtp_draft_vocab.py:55-113 | the built head carries exactly the kept words and their rows; it fails exactly when no row is left or one does not exist |
| DraftHead.Drafter.ComputeLogits | src/patch_mtp_draft_vocab.py:42-52 | at every call, the first or a later one, each word has its own score or minus infinity |
| HeadRepack.Checkpoint.Repack | tools/quantize_lm_head_int8.py:124-141 | the file operations of the swap, stopped anywhere |
| HeadRepack.Checkpoint.Run | tools/quantize_lm_head_int8.py:74-121 | a whole run, stopped anywhere, does a prefix of the run's file operations |
| HeadRepack.AttemptsStayBetween | tools/quantize_lm_head_int8.py:84-121 | any number of runs, each cut anywhere, leaves the files in one of four known states |
| HeadRepack.OriginalIsNeverLost | tools/quantize_lm_head_int8.py:135-141 | at every moment the original shard is there, under its name or as the backup, and the file the next run reads is whole |
| HeadRepack.RunsConverge | tools/quantize_lm_head_int8.py:84-121 | a complete run after any interrupted ones leaves shard, backup, index and temporaries exactly as one uninterrupted run |
| HeadRepack.RunLeaves | tools/quantize_lm_head_int8.py:97-129 | what that is: every tensor but the head's is in the new shard with the same contents and no other one, the three results of quantising the weight are there in their places and the weight is gone; the index names the shard for the three, has no entry for the weight and is otherwise as before; the backup is the original |
| HeadRepack.DryRunLeaves | tools/quantize_lm_head_int8.py:131-134 | a complete dry run writes the same tensors to its own output |
| HeadRepack.DoneStaysDone | tools/quantize_lm_head_int8.py:83-86 | once done, running again changes nothing |
| HeadRepack.DryTouchesDry | tools/quantize_lm_head_int8.py:131-134 | a dry run changes nothing but its own output file |

## Left out

- The block manager, the scheduler's token budget and the model's forward pass: unseen code; `AlignRun` takes any tables, tokens and acceptances that meet the hypotheses above.
- Several mamba groups in one run: `AlignRun` has one group with one block size; the launches below it take any number of states with a block table each.
- Telemetry of the guard (the delayed read of the hit counter and its log lines), pointer registers, masks, dtypes and cache hints of the kernels.
- ConvShift.RowsAnySchedule: the dim-first loop and the dispatch in `StateCopy` are lane programs, not methods over an array; what is proved of them is the memory after every interleaving.
- PostprocessGrid.AnyOrderSameResult: assumes that the columns every program looks at are readable; a program with unreadable columns is given nothing to do.
- Preprocess.SameMemory: compares the token-contiguous layout, the only one the scalar list describes by one region a state, with valid block ids; the scalar path has no guard.
- Preprocess.Runner.StagePostprocess: the copies to the device are values handed to the launch; that they are asynchronous is not modelled.
- Preprocess.SlotState.PreprocessAlign: what a lane that strays out of the arrays hits is not modelled.
- EngineSimulation.PreparationSimulates: a batch is one launch's rows, all of one group and each a different request; the forward pass between the two launches is the relation of `AlignRun`.
- `postprocess_mamba_all`, `preprocess_mamba_all_specdec`, metadata population and buffer creation: only easy members.
- PinnedPool.FreeKeepsValid: of the stock pool's freeing only the split by hash is used, because its text is not part of this model; two blocks with the same hash are possible and covered.
- Logging, the marker's tokenisation and the metrics of the pin. How a coarse block's hash is combined from fine ones is a parameter.
- `prewarm`, memory advice, safetensors parsing, dtypes, scales of FP8 tables and the pinned staging buffers of the synchronous path.
- PleTable.SetupTable: the shard size is the exact ceiling; the source takes it of a floating-point quotient. An empty vocabulary is excluded: what mapping a file of no rows does is not part of this model.
- PlePrefetch.HitsDeliverTheirJob: one stream for all copies, device ids that stay unchanged until their copy executes, and one host thread, as in the source's use.
- GptqHead.RowsOfQuantized: weights are reals, half precision and bf16 are rounding functions; the float32 product before the conversion is exact.
- DraftHead.Drafter.Build: the int4 encoding of the private head is one function per row, so that chunks do not matter; the Marlin kernels are not modelled, nor is the self-check, which changes nothing.
- `link_tree`, the config and index rewriting of the expert tool and `tools/fp8_convert.py`: only easy members, or floating-point formats.
- HeadRepack.Checkpoint.Run: the `--shard` option is not modelled; renames and replacements are atomic and durable, and a torn write is visible as such.
- `src/vllm_fp8_hybrid.py`, `src/patch_qsa_exact_topk.py`, `src/patch_mamba_align_split.py` and the metrics patches: thin dispatch or logging over unseen code.
