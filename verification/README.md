# Verification of the SSD streaming runtime and its sparse attention

Dafny models of five parts of the repository, with proofs about whole runs of them.
`dafny verify dfyconfig.toml` checks the project.

**The compressed index cache** (`Qsa*.dfy`, `WritePlan.dfy`, `GraphLayout.dfy`, `Scatter.dfy`). A request's tokens are
grouped by the compress ratio. A completed group is pooled into one compressed slot, its raw slots divided by the
ratio; the tokens of the unfinished group wait in a per-request ring. Prefill chunks, decode steps and verify rounds
write both buffers from three different plans, and verify rounds write rows that are partly rejected. The reference is
the committed keys themselves, which are what was prefilled or accepted since admission: at every point of every run
the cache equals pooling them afresh. Keys and pooled values are abstract types and pooling is any function; stores of
one forward may land in any order. `QsaPool.dfy` has the pool as a class over arrays, and each of its methods is a
step of the run.

**The page reader** (`PageReader.dfy`) in the imperative form of the Rust code: split, sort, group, read in batches
and waves, scatter. Kernel completions arrive in any order, a failed read breaks the reader for good, and the narrow
integer fields are newtypes, so that each cast is an obligation.

**The staging protocol** (`Staging*.dfy`, `GraphReplay.dfy`, `GraphOutcomes.dfy`) as a step system: one caller, one
worker with a FIFO queue, streams that run their entries in order, events that mean their latest record. Each step
moves one element or makes one host call.

**Sparse-attention kernels and tree masks** (`IndexPacking.dfy`, `StreamedSoftmax.dfy`, `SharedIndices.dfy`,
`GrammarTree.dfy`, `TokenMasks.dfy`).

**Speculative commit, memory arithmetic and adaptive switching** (`CommitSteps.dfy`, `MambaSolver.dfy`,
`AdaptiveState.dfy`).

## What the code does not promise

Each item names the exact condition, proved in both directions, and a lemma that shows it failing at a concrete input.

- Host-side padding rows alias the first request of the batch, not the reserved one: they leave every window of the
  batch intact in every store order if and only if no window position of that request falls on the ring's first cell or
  the padding keys equal the key there (`QsaRing.HostPaddingIsExact`; `QsaInputs.HostPaddingClobbers` has a prompt of one
  token followed by one decode step). The module comment of `graph_metadata.py` speaks of the legacy padding contract as
  if host and kernel did the same; they differ in this field (`GraphLayout.HostAndDeviceAgree`).
- Inert entries of an extend plan gather the first rows of the chunk, which is in bounds if and only if the forward
  carries at least one group of tokens (`QsaForward.ExtendGathersInBounds`; a prompt of one token is
  `QsaInputs.OneTokenPromptGathersPast`).
- A gather that fails leaves its future in the slot. A later valid gather gets a ticket if and only if the stored future
  of the slot it lands on has not failed (`StagingService.ServedUnlessRetired`; `StagingRefusal.ThirdIsRefused` is a run
  of three gathers). The reader stays broken as well, so that after the first failure the gather that takes the next turn
  of each slot fails and all later ones are refused (`StagingBroken.FailureBreaksTheRest`).
- An eager prefetch stays pending for good if and only if nothing else was pending, it had something to look up, it got a
  ticket, and its gather failed (`GraphReplay.PendingForGoodExactly`); all later calls of the layer raise if and only if
  there has been such a prefetch (`GraphReplay.StuckExactly`, `GraphReplay.LostPrefetchBlocksReplay`). One that
  `begin_gather` refuses, because it exceeds the staging buffer or lands on a retired slot, leaves nothing pending
  (`GraphReplay.RefusedPrefetchBlocksNothing`).
- A build leaves the worker as it was unless rebuilding the chain buffers raises, before or after its guarded region, and
  then exactly if nothing had changed (`AdaptiveState.BuildRestores`, `AdaptiveState.FailedBuildTearsFields`). One that
  raises during a switch leaves the target on the old state, and applying the state again does nothing
  (`AdaptiveState.FailedApplySticks`, `AdaptiveState.FailedSwitchTearsFields`).
- A state without a draft-extend backend inherits what the runner has. Every run keeps the fields together if and only
  if each registered state that brings a backend brings the initial one, or all of them bring one
  (`AdaptiveState.RunsStayCoherentExactly`; `AdaptiveState.MixedStates` has a run that tears the fields).
  `eagle_worker_v2.py:1593-1595` takes None to be consistent across step configurations, and the factory in
  `draft_utils.py` chooses the draft-extend backend without looking at the step count, so the states that one worker
  builds are not mixed.
- A verify round longer than the tracking interval can skip a multiple; a run misses none if and only if no round crosses
  two (`CommitSteps.RunMissesNone`, `CommitSteps.LongRoundMisses`).
- The memory solver bounds what a cache size takes by an estimate. Sizes of whole requests, not more than may run, fit if
  and only if they are no larger than the chosen one (`MambaSolver.FitsUpToChosen`). Some larger size fits if and only if
  the chosen one leaves room for one more slot's state and that slot would not open another buffer
  (`MambaSolver.LargerSizeFits`, `MambaSolver.LargerSizeMayFit`).
- A never-captured row of the shared selection attends the first token and what has been drafted since, but repeats the
  first token in every column: it has no duplicates if and only if it has one column (`SharedIndices.NeverCaptured`).

## Model

| member | source | states |
|---|---|---|
| QsaRun.CacheEqualsRecomputation | src/sglang_ssd_stream/rtx_payload/sglang/srt/layers/attention/qsa/qsa_indexer.py:290-400 | At every point of every run, whatever mix of prefill chunks, decode steps, draft steps, verify rounds accepting any prefix, admissions, sharing and releases led there, and in whatever order stores landed, both readers return for every holder the pooling of exactly its committed whole groups, and the ring still holds every committed key of the unfinished group |
| QsaHistory.CacheEqualsHistory | src/sglang_ssd_stream/rtx_payload/sglang/srt/layers/attention/qsa/qsa_indexer.py:290-400 | The same from the operations alone: for a request admitted at any point of a run and not released since, both readers return the pooling of the shared prefix it was admitted with followed by all that was prefilled or accepted for it since, in order, and the ring holds that history's unfinished group |
| QsaHistory.KeysAreHistory | src/sglang_ssd_stream/rtx_payload/sglang/srt/speculative/spec_utils.py:829-833 | The keys and pages of a resident request are that history: no rejected row, no row of another request and no draft is among them |
| QsaHistory.PagedCommits | src/sglang_ssd_stream/rtx_payload/sglang/srt/speculative/spec_utils.py:829-833 | A paged forward appends to each request of the batch exactly its first accepted rows; pages and all other holders stay |
| QsaHistory.ExtendCommits | src/sglang_ssd_stream/rtx_payload/sglang/srt/layers/attention/qsa/qsa_indexer.py:327-343 | An extend forward appends every chunk whole; pages and all other holders stay |
| QsaHistory.AllocatorMoves | src/sglang_ssd_stream/rtx_payload/sglang/srt/mem_cache/qsa_kv_pool.py:25-36 | An allocator move changes one holder: it gets the shared pages with their keys, or more pages, or is gone |
| QsaRun.RunKeepsInv | src/sglang_ssd_stream/rtx_payload/sglang/srt/layers/attention/qsa/qsa_indexer.py:290-400 | The cache invariant holds after every prefix of a run |
| QsaRun.StepKeepsInv | src/sglang_ssd_stream/rtx_payload/sglang/srt/layers/attention/qsa/qsa_indexer.py:290-400 | Every operation, with any outcome of its unordered stores, keeps the cache invariant |
| QsaRun.RowsScoreOwnDrafts | src/sglang_ssd_stream/rtx_payload/sglang/srt/layers/attention/qsa/metadata.py:299-325 | During a verify forward the row that sees L tokens scores against exactly the pooled groups of its own request's first L committed and drafted keys, however many are accepted later |
| QsaRun.ReadersRecompute | src/sglang_ssd_stream/rtx_payload/sglang/srt/layers/attention/qsa/metadata.py:299-325 | The page-table reader and the packed reader both return the recomputation for any visible prefix of a holder's keys |
| QsaRun.AllocationKeepsInv | src/sglang_ssd_stream/rtx_payload/sglang/srt/mem_cache/qsa_kv_pool.py:25-36 | Admitting with a shared prefix, growing, caching and releasing keep the invariant; page-granular sharing shares compressed slots by arithmetic alone |
| QsaRun.PagedKeepsInv | src/sglang_ssd_stream/rtx_payload/sglang/srt/layers/attention/qsa/qsa_indexer.py:317-400 | Store-then-compress of decode and verify rows, eager, in a graph, or in a graph laid out by the host whose padding is harmless, followed by appending to each request exactly its first accepted rows, keeps the invariant |
| QsaRun.DraftsKeepInv | src/sglang_ssd_stream/rtx_payload/sglang/srt/layers/attention/qsa/qsa_indexer.py:317-400 | A chain of draft steps past the committed length, one after another on their own drafts, leaves the cache of the committed keys when the drafts are dropped, as long as all of them fit the ring beside the pending group |
| QsaRun.DraftRowsScoreDrafts | src/sglang_ssd_stream/rtx_payload/sglang/srt/layers/attention/qsa/metadata.py:299-325 | Each draft step scores against the committed keys and the drafts so far, its own included |
| QsaRun.ExtendKeepsInv | src/sglang_ssd_stream/rtx_payload/sglang/srt/layers/attention/qsa/qsa_indexer.py:327-343 | A group-aligned prefill chunk, appended whole, keeps the invariant, whatever the padding entries read |
| QsaPrefill.QuerySeesOwnPrefix | src/sglang_ssd_stream/rtx_payload/sglang/srt/layers/attention/qsa/metadata.py:17-43 | The range a prefill query reads from the packed keys is the recomputation of its own sequence up to its own position: nothing later and nothing of another sequence |
| QsaPrefill.GatherPrefillKeys | src/sglang_ssd_stream/rtx_payload/sglang/srt/layers/attention/qsa/metadata.py:124-178 | Gathering slot by slot puts every sequence's recomputed blocks in its own range |
| QsaPrefill.ReadForQuery | src/sglang_ssd_stream/rtx_payload/sglang/srt/layers/attention/qsa/metadata.py:124-178 | In any extend step of any run, gathering the cache and reading the query's range gives the recomputation of the request's committed and new keys up to the query |
| QsaCache.WindowHolds | src/sglang_ssd_stream/rtx_payload/sglang/srt/layers/attention/qsa/metadata.py:238-265 | After a paged forward a request's ring holds its committed pending tail, which no uncommitted row aliases, and every new row |
| QsaCache.ExtendTailHolds | src/sglang_ssd_stream/rtx_payload/sglang/srt/layers/attention/qsa/metadata.py:259-265 | After an extend forward the ring holds the new pending tail although older tokens were dumped into slot 0 |
| QsaCache.OthersKeepTail | src/sglang_ssd_stream/rtx_payload/sglang/srt/layers/attention/qsa/metadata.py:238-265 | No store of a forward, padding and dumped tokens included, touches the pending tail of a request outside the batch |
| QsaCache.CompressKeepsBlocks | src/sglang_ssd_stream/rtx_payload/sglang/srt/layers/attention/qsa/qsa_indexer.py:344-400 | After the compress step every holder's complete blocks, old ones and those of uncommitted rows, pool that holder's own keys |
| QsaCache.FreshGroupIsPrivate | src/sglang_ssd_stream/rtx_payload/sglang/srt/mem_cache/qsa_kv_pool.py:25-36 | A group that is completed now lies on a page no other holder maps |
| QsaForward.EagerStoresAreGroupStores | src/sglang_ssd_stream/rtx_payload/sglang/srt/layers/attention/qwen_sparse_attn_backend.py:591-605 | The eager plan stores one entry per completed group of each paged row, at its own slot with its own keys; all else goes to slot 0 |
| QsaForward.GraphStoresAreGroupStores | src/sglang_ssd_stream/rtx_payload/sglang/srt/layers/attention/qsa/graph_metadata.py:141-159 | The graph kernels store exactly the same groups from the last raw slot |
| QsaForward.ExtendStoresAreGroupStores | src/sglang_ssd_stream/rtx_payload/sglang/srt/layers/attention/qwen_sparse_attn_backend.py:606-629 | The extend plan stores exactly the groups its chunks complete, with members taken from the chunk |
| QsaForward.ExtendGathersInBounds | src/sglang_ssd_stream/rtx_payload/sglang/srt/layers/attention/qwen_sparse_attn_backend.py:615-629 | Every entry of an extend plan gathers inside the packed tokens if and only if the forward carries at least one group of tokens: inert entries gather the first rows |
| QsaForward.ExtendPlanLongEnough | src/sglang_ssd_stream/rtx_payload/sglang/srt/layers/attention/qwen_sparse_attn_backend.py:615-617 | The shape-derived capacity always exceeds the number of planned blocks |
| QsaGraphRows.LayoutIsForwardRows | src/sglang_ssd_stream/rtx_payload/sglang/srt/layers/attention/qsa/graph_metadata.py:32-107 | After any interleaving of the layout kernel's stores the row buffers describe exactly the rows of the forward it was launched for, then inert rows |
| QsaGraphRows.HostLayoutIsForwardRows | src/sglang_ssd_stream/rtx_payload/sglang/srt/layers/attention/qwen_sparse_attn_backend.py:397-492 | For verify and draft-extend the layout with the host's tail describes exactly the rows of the forward, then inert rows of its first request |
| QsaGraphRows.HostColumnsAreForwardRows | src/sglang_ssd_stream/rtx_payload/sglang/srt/layers/attention/qwen_sparse_attn_backend.py:397-492 | For a host launch made for a batch, in verify, with given extend lengths or with an even share of the rows, the returned lengths and requests are those of the forward's rows, then dummy rows on the first request |
| QsaGraphRows.StoresFollowRows | src/sglang_ssd_stream/rtx_payload/sglang/srt/layers/attention/qsa/metadata.py:238-265 | Row by row, padding included, the key of a paged forward goes to the ring cell of its own request at its own position |
| QsaRing.RingSizeIsExact | src/sglang_ssd_stream/rtx_payload/sglang/srt/layers/attention/qwen_sparse_attn_backend.py:291-312 | No committed pending position shares a cell with a new row if and only if the ring spans the ratio plus the rows less one; the sizing and the guard leave one position to spare |
| QsaRing.HostPaddingIsExact | src/sglang_ssd_stream/rtx_payload/sglang/srt/layers/attention/qwen_sparse_attn_backend.py:473-492 | For a batch of any size whose padding rows alias its first request: every window stays intact in every store order if and only if no window position of that request falls on the ring's first cell or the padding keys equal the key there |
| QsaInputs.HostPaddingClobbers | src/sglang_ssd_stream/rtx_payload/sglang/srt/layers/attention/qwen_sparse_attn_backend.py:473-492 | After a prompt of one token the host's padding row can overwrite the key that the unfinished group needs |
| QsaInputs.OneTokenPromptGathersPast | src/sglang_ssd_stream/rtx_payload/sglang/srt/layers/attention/qwen_sparse_attn_backend.py:615-629 | A prompt of one token is planned an entry that gathers past the chunk |
| QsaPool.QsaTokenToKVPool.PagedForward | src/sglang_ssd_stream/rtx_payload/sglang/srt/layers/attention/qsa/qsa_indexer.py:302-400 | The in-place store and compress of a paged forward is a step of the run that appends to each request exactly its first accepted rows, so the pool stays valid |
| QsaPool.QsaTokenToKVPool.ExtendForward | src/sglang_ssd_stream/rtx_payload/sglang/srt/layers/attention/qsa/qsa_indexer.py:302-369 | The in-place store and compress of an extend forward is a step of the run that appends each chunk whole |
| QsaPool.QsaTokenToKVPool.AllocateOrRelease | src/sglang_ssd_stream/rtx_payload/sglang/srt/mem_cache/qsa_kv_pool.py:25-36 | Allocator moves change the holders and nothing in the buffers |
| QsaPool.QsaTokenToKVPool.constructor | src/sglang_ssd_stream/rtx_payload/sglang/srt/mem_cache/qsa_kv_pool.py:53-183 | A new pool is an initial state of the run |
| QsaAddressing.AddressesAgree | src/sglang_ssd_stream/rtx_payload/sglang/srt/layers/attention/qsa/graph_metadata.py:141-148 | First raw slot, last raw slot and every member of a group divide to the slot the page table names |
| QsaAddressing.PageTableEntry | src/sglang_ssd_stream/rtx_payload/sglang/srt/layers/attention/qsa/metadata.py:299-325 | The page-table entry read off the token row is the page id |
| QsaAddressing.BlocksHaveOwnSlots | src/sglang_ssd_stream/rtx_payload/sglang/srt/mem_cache/qsa_kv_pool.py:25-36 | Distinct blocks of a request never share a slot |
| QsaAddressing.SlotsIdentifyGroups | src/sglang_ssd_stream/rtx_payload/sglang/srt/mem_cache/qsa_kv_pool.py:25-36 | Equal compressed slots come from the same page and the same place in it |
| QsaAddressing.SlotInCapacity | src/sglang_ssd_stream/rtx_payload/sglang/srt/mem_cache/qsa_kv_pool.py:134-138 | No allocated block reaches the inert slot 0 or leaves the compressed cache |
| QsaAddressing.CapacityHoldsPages | src/sglang_ssd_stream/rtx_payload/sglang/srt/mem_cache/qsa_kv_pool.py:134-138 | The rounded-up capacity holds every page of the raw pool |
| WritePlan.PlanListsPairs | src/sglang_ssd_stream/rtx_payload/sglang/srt/layers/attention/qwen_sparse_attn_backend.py:552-570 | Entry e of the compacted plan writes the e-th (row, block) pair; all later entries are inert |
| WritePlan.PairsAreThePlannedBlocks | src/sglang_ssd_stream/rtx_payload/sglang/srt/layers/attention/qwen_sparse_attn_backend.py:530-541 | The pairs are exactly the planned blocks, row by row in order, each once |
| WritePlan.PagedRange | src/sglang_ssd_stream/rtx_payload/sglang/srt/layers/attention/qwen_sparse_attn_backend.py:591-597 | A paged row plans the one block its length completes, if any |
| WritePlan.PagedCapacity | src/sglang_ssd_stream/rtx_payload/sglang/srt/layers/attention/qwen_sparse_attn_backend.py:598-605 | One entry per paged row is capacity enough |
| WritePlan.ExtendCapacity | src/sglang_ssd_stream/rtx_payload/sglang/srt/layers/attention/qwen_sparse_attn_backend.py:615-617 | Aligned chunks complete at most tokens / ratio groups between them |
| PageReader.ReaderState.Gather | src/lib.rs:225-360 | A successful gather is the row-by-row copy, zeros for foreign ids, for any ids; it is refused after an earlier I/O failure; its other errors are exactly a wrong or oversized output and I/O, the latter exactly when a submission or wait failed, a tag was unknown, or a read did not return the whole page or what the file has of it; only I/O breaks the reader |
| PageReader.ReaderState.ReadPageBatch | src/lib.rs:362-453 | A batch fails exactly when one of its submissions, waits or reads did; otherwise every slot holds its own page, for every completion order and every split across waits |
| PageReader.ReaderState.ReadWave | src/lib.rs:371-451 | A wave keeps finished slots and adds its own; it ends early exactly on a failed submission or wait, an unknown tag, or a read that failed or did not return the whole page or what the file has of it |
| PageReader.ReaderState.ReadAndScatter | src/lib.rs:315-345 | Batch by batch, scattering copies only bytes of the batch just read, never stale pool bytes |
| PageReader.ReaderState.GroupPages | src/lib.rs:288-302 | The groups split the sorted pieces into consecutive runs, one per page, with exact 32-bit bounds |
| PageReader.ReaderState.PlanPieces | src/lib.rs:249-286 | The pieces are sound and cover every served output byte; their number is within the output length |
| PageReader.PieceAt | src/lib.rs:273-285 | Each piece lies in one page, the file and the output, carries the right bytes, and every narrowing cast is exact |
| PageReader.PieceInRead | src/lib.rs:424-433 | A piece ends within the bytes its possibly short page read must return |
| PageReader.FilledIsGathered | src/lib.rs:329-341 | When all pieces are scattered the output is the row-by-row copy: nothing is lost, duplicated or misplaced |
| PageReader.PagesReadOnce | src/lib.rs:289-302 | No page is read twice |
| PageReader.GroupsWithinPieces | src/lib.rs:289-302 | There are at most as many groups as pieces |
| StagingRuns.OutputsAreExact | src/sglang_ssd_stream/backend.py:241-324 | In every interleaving a finished copy leaves exactly the rows of its call's ids, and every read that waited for a launched call saw them |
| StagingRuns.OneCallPerSlot | src/sglang_ssd_stream/backend.py:231-239 | Unfinished work on a slot, with the worker or on any stream, is all for one call; two running calls never share a slot |
| StagingRuns.UnreadRowsStay | src/sglang_ssd_stream/backend.py:255-268 | Rows that an unfinished copy may still read do not change, whoever steps |
| StagingRuns.UnreadIdsStay | src/sglang_ssd_stream/backend.py:251-258 | Ids that the page reader is still reading do not change, whoever steps |
| StagingRuns.NoDeadlock | src/sglang_ssd_stream/backend.py:231-324 | Until everything has finished some actor can step |
| StagingTermination.EveryRunFinishes | src/sglang_ssd_stream/backend.py:231-324 | Any run can be carried on to the end without another I/O failure, and there every valid gather has left exactly its rows, has failed, or was refused, the last exactly behind a failure on its slot |
| StagingTermination.RunsAreBounded | src/sglang_ssd_stream/backend.py:231-324 | No run, under any schedule, is longer than a bound fixed before it starts |
| StagingService.ServedUnlessRetired | src/sglang_ssd_stream/backend.py:231-322 | In every reachable state a gather that the caller is done with has a ticket, on the slot whose turn it was, if and only if its ids fit the staging buffer, its output has a row for each, and that slot's stored future had not failed before it |
| StagingOrder.IdsBehindProducer | src/sglang_ssd_stream/backend.py:303-313 | In every run, when the copy of a gather's ids can take a step, all that was on the producer's stream when the gather began is done |
| StagingService.FaultFreeRunsServeAll | src/sglang_ssd_stream/backend.py:231-324 | If the reader never fails, at the end every valid gather was served and left exactly its rows, and every consumer of one has read them |
| StagingService.FailureRetires | src/sglang_ssd_stream/backend.py:231-239 | A gather that fails retires its slot at once, or with the caller's next step, which stores the failed future |
| StagingService.FailureRetiresSlot | src/sglang_ssd_stream/backend.py:231-239 | A retired slot stays retired and serves no later call in any continuation |
| StagingService.BeginOnRetiredRaises | src/sglang_ssd_stream/backend.py:231-239 | A begin that lands on a retired slot raises: no ticket, and nothing changes but that the program goes on |
| StagingRefusal.ThirdIsRefused | src/sglang_ssd_stream/backend.py:231-239 | A run of three valid gathers in which the first fails and the third is refused |
| StagingBroken.FailureBreaksTheRest | src/sglang_ssd_stream/backend.py:241-258 | At the end of a run whose reader has failed, every valid gather before the first failure is exact, the one that takes the next turn of each slot has failed, and all later ones were refused |
| StagingBroken.NothingLaunchedAfter | src/sglang_ssd_stream/backend.py:241-258 | In every reachable state nothing that was called after a failed gather has been launched |
| Staging.StepKeepsInv | src/sglang_ssd_stream/backend.py:231-324 | Every step of caller, worker, stream or failing reader keeps the protocol invariant |
| Staging.SlotDrained | src/sglang_ssd_stream/backend.py:235-238 | Once the stored future is done and the event has fired, no work on the slot is left on any stream |
| Staging.IdsArrived | src/sglang_ssd_stream/backend.py:251-258 | Once the ids event has fired the slot holds the ids of the worker's call |
| Staging.ReadSeesRows | src/sglang_ssd_stream/backend.py:58-71 | A read behind a ticket's wait runs only after the copy of all its rows |
| GraphReplay.ReadIsExact | src/sglang_ssd_stream/qwen4.py:77-195 | Over any sequence of staged replays, eager prefetches and consumers and any stream schedule, every finished read has seen exactly the rows that its own call copied |
| GraphReplay.ReplayReadsItsBatch | src/sglang_ssd_stream/qwen4.py:142-195 | A staged replay's entries stand in order, and once it has read it holds the rows staged for its own batch |
| GraphOutcomes.BatchIsStaged | src/sglang_ssd_stream/qwen4.py:142-195 | With nothing pending, rows that fit a captured buffer and are delivered have their copy ahead of the record that the graph of the same call waits for |
| GraphOutcomes.BatchIsRead | src/sglang_ssd_stream/qwen4.py:142-195 | The read of that graph, once done, begins with those rows under any stream schedule |
| GraphOutcomes.ReplayExactly | src/sglang_ssd_stream/qwen4.py:142-195 | A replay raises if and only if a prefetch is pending, its size was not captured, or it has rows that do not fit or are not delivered; otherwise its graph is launched, and rows are copied for it if and only if there are some; the prefetch stream waits for compute unless one of the first two holds |
| GraphOutcomes.NothingToStage | src/sglang_ssd_stream/qwen4.py:160-178 | A replay without rows records the event anew, and its graph waits for that record |
| GraphOutcomes.PendingExactly | src/sglang_ssd_stream/qwen4.py:77-140 | A prefetch is pending exactly from its start to the first consumer after its gather delivered, if none was pending then; no replay ends it |
| GraphOutcomes.StartExactly | src/sglang_ssd_stream/qwen4.py:77-122 | A start copies if and only if none is pending, it has rows, and they are delivered |
| GraphOutcomes.ConsumeExactly | src/sglang_ssd_stream/qwen4.py:123-140 | A consumer reads exactly the pending prefetch, if it is delivered |
| GraphOutcomes.PrefetchIsConsumed | src/sglang_ssd_stream/qwen4.py:77-140 | The first consumer after a delivered prefetch reads it, whatever replays there are in between |
| GraphOutcomes.PrefetchIsRead | src/sglang_ssd_stream/qwen4.py:77-140 | A read of a delivered prefetch, once done, has seen just its rows under any stream schedule |
| GraphReplay.ConsumerReadsItsBatch | src/sglang_ssd_stream/qwen4.py:77-140 | The consumer of an eager prefetch waits for the prefetch stream and reads just the rows of that prefetch |
| GraphReplay.PendingForGoodExactly | src/sglang_ssd_stream/qwen4.py:77-140 | A start stays pending however the calls go on if and only if nothing was pending, it had rows to look up, got a ticket, and its gather failed |
| GraphReplay.StuckExactly | src/sglang_ssd_stream/qwen4.py:77-195 | All later calls raise, however they go on, if and only if a prefetch has been lost |
| GraphReplay.LostPrefetchStays | src/sglang_ssd_stream/qwen4.py:77-140 | A prefetch with a ticket whose gather fails stays pending, and every later call raises |
| GraphReplay.ConsumeClears | src/sglang_ssd_stream/qwen4.py:123-140 | A delivered prefetch is consumed and cleared by the next consumer; one that is not lost is never pending after it |
| GraphReplay.LostPrefetchBlocksReplay | src/sglang_ssd_stream/qwen4.py:142-173 | After a lost prefetch even a replay without layer input raises |
| GraphReplay.RefusedPrefetchBlocksNothing | src/sglang_ssd_stream/qwen4.py:142-173 | After a refused prefetch, here behind two failed replays, the same replay returns |
| GraphReplay.StagedSegment | src/sglang_ssd_stream/qwen4.py:160-195 | A staged call leaves the ready event recorded behind its own copy, and its graph waits for that very record |
| GraphReplay.LaterCopyWaits | src/sglang_ssd_stream/qwen4.py:158-161 | The next copy into any buffer starts only after the earlier batch has been read |
| GraphReplay.ReadIsCurrent | src/sglang_ssd_stream/qwen4.py:20-28 | While a graph or a consumer reads, the copy it reads has finished and no later one has started |
| GraphReplay.NoDeadlock | src/sglang_ssd_stream/qwen4.py:142-195 | The earliest unfinished entry can always run |
| GrammarTree.TraverseTree | src/sglang_ssd_stream/rtx_payload/sglang/srt/speculative/spec_utils.py:442-507 | Row n is filled exactly when every token on the path to n but the root's is below the vocabulary size, if one is set, and allowed by the grammar after its parent's tokens, and the grammar terminates nowhere on the path; it gets the allowed tokens of the state after the path, 32 to a word; other rows are unchanged and the grammar is back where it was |
| GrammarTree.SurvivesEverywhere | src/sglang_ssd_stream/rtx_payload/sglang/srt/speculative/spec_utils.py:457-498 | What the walk accepts along a path is, node by node, a token below the vocabulary size that the grammar allows after the parent's tokens, and no termination |
| GrammarTree.Composed | src/sglang_ssd_stream/rtx_payload/sglang/srt/speculative/spec_utils.py:457-505 | Filling a node, then its children with the token accepted, then its siblings with it rolled back, composes to the rows of the whole tree |
| TokenMasks.BitSaysAllowed | src/sglang_ssd_stream/rtx_payload/sglang/srt/speculative/spec_utils.py:473-476 | The walk's bit test on a packed mask, 32 tokens to a word with the first one lowest, says whether the grammar allows the token |
| GrammarTree.GenerateTokenBitmask | src/sglang_ssd_stream/rtx_payload/sglang/srt/speculative/spec_utils.py:510-557 | Each request with a grammar gets its own tree's masks in its own rows, the others keep the allocated ones; nothing is allocated without a grammar |
| GraphLayout.LaunchKernel | src/sglang_ssd_stream/rtx_payload/sglang/srt/layers/attention/qsa/graph_metadata.py:32-107 | Whatever order the program instances run in, the row buffers hold the layout |
| GraphLayout.AnyInterleaving | src/sglang_ssd_stream/rtx_payload/sglang/srt/layers/attention/qsa/graph_metadata.py:32-107 | The stores of all instances, however they interleave, leave exactly the layout |
| GraphLayout.OneWriter | src/sglang_ssd_stream/rtx_payload/sglang/srt/layers/attention/qsa/graph_metadata.py:65-107 | Every row has exactly one writing instance |
| GraphLayout.Instance | src/sglang_ssd_stream/rtx_payload/sglang/srt/layers/attention/qsa/graph_metadata.py:47-107 | An instance writes its own rows with the right lengths, prefixes and requests and no others |
| GraphLayout.HostLayout | src/sglang_ssd_stream/rtx_payload/sglang/srt/layers/attention/qwen_sparse_attn_backend.py:397-492 | From the fields of the launch: request i gets the verify length, its given extend length or none past the list's end, or an even share, and no rows if it is padding; row j of it has length min(prefix + 1 + j, limit); dummy rows on the first request follow; it raises exactly when the rows do not fit; and it is the kernel's layout but for the dummy |
| GraphLayout.HostAndDeviceAgree | src/sglang_ssd_stream/rtx_payload/sglang/srt/layers/attention/qwen_sparse_attn_backend.py:473-492 | Host and kernel agree on every length and prefix and on the request of every real row; on the tail's requests exactly when the host's dummy is request 0 or there is no tail |
| GraphLayout.StoresFitExactly | src/sglang_ssd_stream/rtx_payload/sglang/srt/layers/attention/qsa/graph_metadata.py:65-107 | The kernel's unchecked stores stay in the buffers exactly when the host would not raise |
| IndexPacking.PackOutcome | src/sglang_ssd_stream/rtx_payload/qsa_pack.py:9-24 | In any store order a row's place ends as the stable filter of its valid indices followed by -1 |
| IndexPacking.DestinationsPermute | src/sglang_ssd_stream/rtx_payload/qsa_pack.py:18-22 | Destinations stay in the row and are pairwise different |
| IndexPacking.Source | src/sglang_ssd_stream/rtx_payload/qsa_pack.py:18-22 | Every place is some column's destination |
| IndexPacking.CompactSparseIndices | src/sglang_ssd_stream/rtx_payload/qsa_pack.py:27-40 | All rows are packed, each in its own place |
| IndexPacking.PrefixSum | src/sglang_ssd_stream/rtx_payload/sglang/srt/layers/attention/qsa/sparse_attn.py:431-437 | Segment starts are the running totals of the counts |
| IndexPacking.StridedSegments | src/sglang_ssd_stream/rtx_payload/sglang/srt/layers/attention/qwen_sparse_attn_backend.py:1617-1637 | Fixed strides at least as wide as a row give segments that do not overlap |
| IndexPacking.TightSegments | src/sglang_ssd_stream/rtx_payload/sglang/srt/layers/attention/qsa/sparse_attn.py:410-437 | The counted prefix sum gives segments that do not overlap |
| IndexPacking.ExtractionOutcome | src/sglang_ssd_stream/rtx_payload/sglang/srt/layers/attention/qsa/sparse_attn.py:468-512 | In any store order entry cu[r] + j is the K/V of row r's j-th valid index and nothing outside the segments moved |
| IndexPacking.CompactKV | src/sglang_ssd_stream/rtx_payload/sglang/srt/layers/attention/qsa/sparse_attn.py:468-512 | The extraction kernel over all its instances does so in place |
| IndexPacking.ExtractSelected | src/sglang_ssd_stream/rtx_payload/sglang/srt/layers/attention/qsa/sparse_attn.py:530-572 | Counting, packing and extraction composed do so for tight and for strided segments |
| StreamedSoftmax.Attend | src/sglang_ssd_stream/rtx_payload/sglang/srt/layers/attention/qsa/sparse_attn.py:107-167 | The streamed loop returns the softmax-weighted mean over all visited tokens if its first block holds a token, and NaN if not; for front-packed causal distinct tokens that is the mean over the whole row, and NaN only for an empty one |
| StreamedSoftmax.NextBlock | src/sglang_ssd_stream/rtx_payload/sglang/srt/layers/attention/qsa/sparse_attn.py:117-167 | Rescaling and adding one more block equals having processed all columns as one block |
| StreamedSoftmax.Normalized | src/sglang_ssd_stream/rtx_payload/sglang/srt/layers/attention/qsa/sparse_attn.py:167 | Dividing the accumulator by the normalizer gives the direct weighted mean |
| StreamedSoftmax.CutoffDropsNothing | src/sglang_ssd_stream/rtx_payload/sglang/srt/layers/attention/qsa/sparse_attn.py:107-108 | With front-packed causal indices without duplicates the row limit drops no token, and the first block is empty only if the row is |
| StreamedSoftmax.RowLimitIs | src/sglang_ssd_stream/rtx_payload/sglang/srt/layers/attention/qsa/sparse_attn.py:107-108 | The loop goes to the end of the block that holds the last column the query may fill, or to the end of the row, and nowhere for a query that sees nothing |
| SharedIndices.LookupAttends | src/sglang_ssd_stream/rtx_payload/sglang/srt/layers/attention/qwen_sparse_attn_backend.py:174-195 | A lookup attends the frozen selection plus exactly the positions since the capture, if and only if the gap fits the tail |
| SharedIndices.LookupIsSound | src/sglang_ssd_stream/rtx_payload/sglang/srt/layers/attention/qwen_sparse_attn_backend.py:174-195 | It never looks past the current position, and repeats one if and only if the frozen selection does |
| SharedIndices.LayerSlot.Capture | src/sglang_ssd_stream/rtx_payload/sglang/srt/layers/attention/qwen_sparse_attn_backend.py:160-172 | A captured row holds one of the selections stored to it, and untargeted rows do not change |
| SharedIndices.LayerSlot.Lookup | src/sglang_ssd_stream/rtx_payload/sglang/srt/layers/attention/qwen_sparse_attn_backend.py:174-195 | The frozen columns followed by the tail from the captured length |
| SharedIndices.CaptureBatch | src/sglang_ssd_stream/rtx_payload/sglang/srt/layers/attention/qwen_sparse_attn_backend.py:1333-1381 | The buffers make a step of the run: the row of each request with rows and a slot of its own gets the selection and length of its anchor; padded and empty requests change only the trash row |
| SharedIndices.AnchorIsLastAccepted | src/sglang_ssd_stream/rtx_payload/sglang/srt/layers/attention/qwen_sparse_attn_backend.py:1353-1370 | The anchor is the last accepted row of the request's own block |
| SharedIndices.AnchorIsNearest | src/sglang_ssd_stream/rtx_payload/sglang/srt/layers/attention/qwen_sparse_attn_backend.py:1353-1370 | For any accept counts the anchor is the row nearest to where they point |
| SharedIndices.SeedSurvives | src/sglang_ssd_stream/rtx_payload/sglang/srt/layers/attention/qwen_sparse_attn_backend.py:118-138 | Through any later batches without the request, its row still holds the seed of its last capture |
| SharedIndices.IdleRowStays | src/sglang_ssd_stream/rtx_payload/sglang/srt/layers/attention/qwen_sparse_attn_backend.py:1370-1374 | The reserved row, and the row of a request as long as it has no rows in any batch, stay as they were at the start of the run |
| SharedIndices.LaterLookupAttendsSeed | src/sglang_ssd_stream/rtx_payload/sglang/srt/layers/attention/qwen_sparse_attn_backend.py:118-195 | At every later draft step a lookup attends that seed and exactly the positions since, if and only if they fit the tail, without duplicates and never past the current one |
| SharedIndices.NeverCaptured | src/sglang_ssd_stream/rtx_payload/sglang/srt/layers/attention/qwen_sparse_attn_backend.py:139-158 | A row as the constructor leaves it attends the first token and the drafts since; it is free of duplicates only with one column |
| CommitSteps.TracksLargestMultiple | src/sglang_ssd_stream/rtx_payload/sglang/srt/speculative/spec_utils.py:829-847 | The tracked step is an accepted one and ends at the largest interval multiple passed; it is -1 exactly when none is |
| CommitSteps.TracksNodeAtMultiple | src/sglang_ssd_stream/rtx_payload/sglang/srt/speculative/spec_utils.py:829-847 | In any tree the tracked step is the own row of the accepted node that ends at that multiple |
| CommitSteps.CommitsLastNode | src/sglang_ssd_stream/rtx_payload/sglang/srt/speculative/spec_utils.py:814-827 | In any tree the committed step is the own row of the last accepted node |
| CommitSteps.ChainCommitsLast | src/sglang_ssd_stream/rtx_payload/sglang/srt/speculative/spec_utils.py:824-827 | Chain acceptance commits step accept_len - 1 |
| CommitSteps.RunMissesNone | src/sglang_ssd_stream/rtx_payload/sglang/srt/speculative/spec_utils.py:829-847 | Over a run every multiple passed is tracked if and only if no round crosses two |
| CommitSteps.LongRoundMisses | src/sglang_ssd_stream/rtx_payload/sglang/srt/speculative/spec_utils.py:829-847 | Four tokens accepted at once with a state every two: the multiple 2 is missed |
| CommitSteps.ShortRoundsMissNone | src/sglang_ssd_stream/rtx_payload/sglang/srt/speculative/spec_utils.py:829-847 | Accept lengths within the interval never miss a multiple |
| CommitSteps.KeepsTracked | src/sglang_ssd_stream/rtx_payload/sglang/srt/speculative/spec_utils.py:829-847 | The run's notion of a kept multiple is the tracked step |
| MambaSolver.AutoFit | src/sglang_ssd_stream/rtx_payload/sglang/srt/mem_cache/kv_cache_configurator.py:2123-2190 | In the auto-fit branch slots, padding and intermediate buffers fit the share, so at least total / (1 + ratio) is returned; it fails exactly when no slot fits |
| MambaSolver.UsedWithinEstimate | src/sglang_ssd_stream/rtx_payload/sglang/srt/mem_cache/kv_cache_configurator.py:2126-2156 | No cache size takes more than the solver's estimate, and a size of whole requests within the cap takes exactly that |
| MambaSolver.FitsUpToChosen | src/sglang_ssd_stream/rtx_payload/sglang/srt/mem_cache/kv_cache_configurator.py:2142-2147 | Every size up to the chosen one fits the share; a size of whole requests within the cap fits if and only if it is no larger |
| MambaSolver.LargerSizeFits | src/sglang_ssd_stream/rtx_payload/sglang/srt/mem_cache/kv_cache_configurator.py:2142-2154 | Some size beyond the chosen one fits if and only if the next one does, and that is when the chosen one leaves room for a slot's state and the next opens no buffer |
| MambaSolver.LargerSizeMayFit | src/sglang_ssd_stream/rtx_payload/sglang/srt/mem_cache/kv_cache_configurator.py:2148-2154 | With one running request and three slots a request, 51 slots still fit where 50 are chosen |
| MambaSolver.AdmittedHaveMemory | src/sglang_ssd_stream/rtx_payload/sglang/srt/mem_cache/kv_cache_configurator.py:1943-1958 | Every admitted request has its slots and its paid-for intermediate buffer |
| MambaSolver.AdmitsMost | src/sglang_ssd_stream/rtx_payload/sglang/srt/mem_cache/kv_cache_configurator.py:1928-1958 | As many requests are admitted as two tokens and the slots for each, the limit or the estimate allow; it fails exactly when not even one fits |
| MambaSolver.SlotsPerRequest | src/sglang_ssd_stream/rtx_payload/sglang/srt/mem_cache/kv_cache_configurator.py:1867-1899 | One slot without a radix cache and three without an extra buffer, with or without the decode lock; an extra buffer costs two more in overlap mode, one fewer if lazy or out of overlap mode, and then skipping the lock saves one |
| AdaptiveState.RunsStayCoherentExactly | src/sglang_ssd_stream/rtx_payload/sglang/srt/speculative/eagle_worker_v2.py:1490-1684 | From any coherent worker, all fields belong to one registered state after every sequence of builds, with faults in their guarded region, and switches, if and only if no state brings a draft-extend backend other than the initial one while another brings none |
| AdaptiveState.RunStaysCoherent | src/sglang_ssd_stream/rtx_payload/sglang/srt/speculative/eagle_worker_v2.py:1490-1684 | That one state is the only one whose step count is the current one |
| AdaptiveState.RunKeepsGraphSettings | src/sglang_ssd_stream/rtx_payload/sglang/srt/speculative/eagle_worker_v2.py:1607-1684 | No sequence of switches and builds changes which batch sizes have graphs or whether graphs are used |
| AdaptiveState.MixedStates | src/sglang_ssd_stream/rtx_payload/sglang/srt/speculative/eagle_worker_v2.py:1593-1598 | States with and without a draft-extend backend stay together in every run with one initial backend; with any other, switching between them tears the fields |
| AdaptiveState.BuildRestores | src/sglang_ssd_stream/rtx_payload/sglang/srt/speculative/eagle_worker_v2.py:1615-1684 | When a build leaves every field as it was, fault by fault |
| AdaptiveState.FailedBuildTearsFields | src/sglang_ssd_stream/rtx_payload/sglang/srt/speculative/eagle_worker_v2.py:1637-1662 | A build that runs out of memory before its guarded region leaves fields of no registered state |
| AdaptiveState.ApplySwitches | src/sglang_ssd_stream/rtx_payload/sglang/srt/speculative/eagle_worker_v2.py:1568-1613 | Switching makes all fields belong to the new state if and only if it brings a draft-extend backend or the runner still has its initial one |
| AdaptiveState.FailedApplySticks | src/sglang_ssd_stream/rtx_payload/sglang/srt/speculative/eagle_worker_v2.py:1599-1606 | If rebuilding the chain buffers raises, the target stays on the old state and applying again changes nothing |
| AdaptiveState.FailedSwitchTearsFields | src/sglang_ssd_stream/rtx_payload/sglang/srt/speculative/eagle_worker_v2.py:1599-1606 | A switch that raises leaves fields of no registered state, also after a second attempt |
| AdaptiveState.Worker.Build | src/sglang_ssd_stream/rtx_payload/sglang/srt/speculative/eagle_worker_v2.py:1490-1566 | The imperative build leaves what the specification says and returns the new state exactly without a fault |
| AdaptiveState.Worker.ApplyRuntimeState | src/sglang_ssd_stream/rtx_payload/sglang/srt/speculative/eagle_worker_v2.py:1568-1613 | The imperative switch leaves what the specification says |

## Left out

- Tensor dimensions that no address depends on: index keys with their rotary coordinates are one abstract value per
  position, K/V entries one value per slot for all heads and dimensions, and one layer stands for all layers.
- Which prefixes the radix tree caches or evicts: any page-aligned prefix may be shared, cached or released at any time.
- Eager data-parallel padding, pipeline parallelism, LoRA, the tokenwise index variant and HIP or NPU branches.
- Kernels outside the modelled files (top-k selection, block expansion, pooling, the fused commit kernel) are functions
  or are not used; `_rebuild_topk1_chain_buffers` and the AdaptiveController are not part of this model beyond what
  their callers rely on.
- Rounding and number formats: the softmax and the memory solver are over the reals, FP8 scales belong to the score and
  to the value, and exp2 is any positive function that turns sums into products.
- The staging protocol and the graph replay are step systems rather than classes, because their content is the
  interleaving of actors; the output tensors of different gathers are distinct there, and reuse of one buffer is
  modelled in `GraphReplay.dfy`.
- A gather inside a graph replay or an eager prefetch is one copy there; its slot, ids and events are modelled in
  `Staging.dfy`. `_get_prefetch_buffer` of the base class is not part of this model: all eager prefetches share one
  buffer.
- Only one caller thread acquires staging slots: between clearing the stored future and storing the new one the code
  holds no lock.
- Captures outside draft-extend (the last row of each request of a plain extend batch) and the layer index of the
  shared selection.
- The branches of the memory solver with an explicit cache size or with the radix cache off reserve memory without a
  budget, so there is no bound to state for them; logging and the worker-count checks around the branches.
- SharedIndices.LayerSlot.Capture: which of several selections stored to one row survives is open, because indexed
  copies have no order; it happens for the trash row only.
- PageReader.ReaderState.NextCompletion: the kernel's contract, with the bytes of a partial read chosen by the model.
- I/O set-up, statistics, timing, the process's own I/O counters and the checks of tensor types and devices.
- Siblings of the root in `traverse_tree`, whose parent row would be the last row of the mask: the tree has one root.
- Draft steps of the cache are in `QsaRun.dfy` only; the pool class has the paged forward that each of them is.
- Recursion depth limits, integer widths of device tensors and the allocation of new buffers.
