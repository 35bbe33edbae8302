# Verification of the runtime's hardest parts

This project models the parts of the repository whose correctness is hardest to see by reading and
proves what they promise.

- **Split-KV paged flash attention.** The reference operator and the fast one, as a host plan, three
  kernels, a copy pipeline and a swizzled tile. Numbers are exact reals with a minus infinity; `exp2` is
  any positive function that turns sums into products, and the reference's `exp(x)` is
  `exp2(x * log2e)`. `Softmax` holds the arithmetic of running and merged softmax, `SplitGeometry` the
  index geometry, `CopyPipeline` the asynchronous copies under every schedule of the block's threads,
  `PagedBatch` inputs and reference, `FaMainTile` one block's tile loop, `FlashAttention` stores, merge,
  launches and the refinement theorems, `Swizzle` the byte and lane maps, `TileFill` the copies into a
  tile, `GridOwnership` who stores what, `PartialBuffer` the one buffer of partials, `LaunchPlan` the
  host side and the whole forward pass, and `AttentionLaws` what the reference's scores and averages
  mean.
- **Active-time accounting.** `SessionClock` is the state file with its operations; `ClockRuns` a state
  machine over every interleaving of callers, readers, launches, crashes and the clock. Lease probes
  are single steps, so a caller may die in the middle of a reap.
- **Token exposure.** `TokenReplay` proves the event replay equal to a declaration of which request
  carries which fragment; `AdjacentThinking` the adjacency scan and the equal shares.
- **Worklists.** `DependencyClosure` (least fixpoint with growing extras) and `Genealogy` (cycle search
  and the append-only history it guards).
- **Crash-and-retry creation.** `SeedRegistry` holds the registry's tables and transactions,
  `LineageSeed`, `Ablation` and `Bootstrap` the calls made of them, interruptible between any two,
  `BootstrapRuns` the runs of bootstraps, `SeedLaws` and `BootstrapLaws` what a success leaves in terms of
  its request; `EvaluationContract` and `EvidenceWalk` the two decisions a resumed Campaign depends on.

Code that changes things step by step is modelled by methods and classes proved against
specification functions; what the source promises is then proved about those functions.

## Where the code does less than a reader may expect

- With one split, a request with queries but no KV columns keeps whatever the output buffer held: the
  block returns early and nothing else writes those rows. `FlashAttention.ExactlyWhenWritten` gives the
  exact condition; the operator's contract (at least as many KV columns as queries) excludes it.
- The genealogy guard cannot see a way to the proposed Direction that the caller's view hides. It protects
  the whole history exactly if a truthful view shows the way from every Direction it shows
  (`Genealogy.GuardsExactlyWhenWayShown`); `Genealogy.HiddenAncestorBreaksIt` is an input on which it does
  not. The journal is safe: it only proposes new ids (`gateway/journals.py:840-848`), for which any truthful
  view is enough (`Genealogy.FreshShowsWay`).
- Every interrupted bootstrap can be completed, except one: a process that stops after the generator's
  outcome is committed and before its run is recorded as completed leaves a Lineage that can never be
  bootstrapped, because recovery then raises (`BootstrapRuns.OutcomeAloneIsStuck`,
  `BootstrapRuns.StuckIsReached`; the exact condition is `BootstrapRuns.NextBootCompletes`). An outcome
  that is not correct is final in the same way. A generator that did not recover its outcome would have
  to repeat it (`BootstrapRuns.RetryNeedsTheSameBaseline`).
- The call that completes an interrupted bootstrap reports its own time as the Kernel's
  (`BootstrapRuns.CompletingCallReportsAnotherTime`).

## Model

| member | source | states |
|---|---|---|
| LaunchPlan.Model.Forward | repro-cuda-core/kernel.py:868-1102 | The whole operator, from a model object: for every batch within the contract and any contents of the freshly allocated buffers, every slot and head of the output is the reference's number; the plan cache stays valid |
| FlashAttention.ContractForward | repro-cuda-core/kernel.py:237-711 | Under the operator's contract the launches leave exactly the reference's result at every slot and head, for every number of splits |
| FlashAttention.ForwardMatchesReference | repro-cuda-core/kernel.py:237-711 | With no assumption on the request lengths: wherever the reference is a number the kernels agree with it, except in rows the direct path leaves unwritten |
| FlashAttention.ExactlyWhenWritten | repro-cuda-core/kernel.py:300-317 | The early return is the only exception, exactly: agreement for all buffer contents iff the split path is used, or the slot is padding, or the request has KV columns |
| FlashAttention.EmptyRequestKeepsBuffer | repro-cuda-core/kernel.py:300-317 | A valid launch in the failing family: one query, no KV columns, one split; the reference is zero and the buffer keeps its contents |
| FlashAttention.Forward | repro-cuda-core/kernel.py:1070-1102 | The launch sequence writes every element of the output: averages on active rows, zeros on padding rows, old contents only where the direct path returns early |
| PagedBatch.ReferenceForward | repro-cuda-core/reference/reference.py:34-61 | The reference's loop over requests fills every slot with its row's softmax average, NaN where no column is visible, zero elsewhere |
| PagedBatch.FillSlice | repro-cuda-core/reference/reference.py:51-60 | One request's slice: scores, mask, softmax and average for each of its rows and heads, nothing outside the slice changed |
| PagedBatch.KernelRowIsReference | repro-cuda-core/reference/reference.py:54-60 | Deferred division in base two equals the reference's normalised softmax in base e, per row, including the row without columns |
| PagedBatch.RefTotalPositive | repro-cuda-core/reference/reference.py:57-59 | The softmax denominator is positive as soon as one column is visible |
| AttentionLaws.ReferenceIsAttention | repro-cuda-core/reference/reference.py:51-60 | The reference's row, from the inputs' layout alone: the average of the visible columns' values under weights that are positive exactly up to the causal limit, sum to 1, and stand in the ratios of the exponentials of the scaled differences of the dot products of the query with the keys |
| AttentionLaws.WeightsAreUnique | repro-cuda-core/reference/reference.py:54-59 | Those laws admit one list of weights only |
| AttentionLaws.DotIsTheDotProduct | repro-cuda-core/reference/reference.py:54-55 | The product of vectors is symmetric, bilinear and picks out coordinates |
| AttentionLaws.FutureIsIgnored | repro-cuda-core/reference/reference.py:56-59 | Columns after the causal limit, other requests and other heads have no influence on a row |
| AttentionLaws.WithoutVisibleColumns | repro-cuda-core/reference/reference.py:56-60 | A row is NaN iff its request has columns and it may see none; without columns it is zero |
| Softmax.DeferredDivision | repro-cuda-core/kernel.py:533-554 | Dividing the accumulated products once by the denominator equals averaging with normalised weights |
| Softmax.RescaleCarried | repro-cuda-core/kernel.py:452-457 | Rescaling by ex2 of the difference of maxima preserves what a running value stands for, from -INF and under the -1e30 clamp too |
| Softmax.TileStepSum | repro-cuda-core/kernel.py:459-484 | One tile's rescaled denominator plus its row sum stands for the sum over the old and the new columns |
| Softmax.TileStepOut | repro-cuda-core/kernel.py:498-521 | The same for an output coordinate: rescaled accumulator plus P times V |
| Softmax.MergeStep | repro-cuda-core/kernel.py:663-675 | Folding one split's partial into the running merge adds what the two stand for, whatever their maxima |
| SplitGeometry.SplitsPartition | repro-cuda-core/kernel.py:281-286 | Splits partition the KV columns in whole pages: each begins where the previous ends, the first at 0, the last ends at kv_len |
| SplitGeometry.ColumnInOneSplit | repro-cuda-core/kernel.py:281-286 | Every column lies in exactly one split |
| SplitGeometry.TilesInside | repro-cuda-core/kernel.py:292-299 | Every issued tile lies in its split, starts on a page below ceil(kv_len/64), and the prefetch test says exactly whether a next tile exists |
| SplitGeometry.MaskExact | repro-cuda-core/kernel.py:410-428 | The mask test decides visibility exactly; tiles before n_full contain no column any row must mask, and an unmasked column is never zero fill |
| SplitGeometry.BeyondEnd | repro-cuda-core/kernel.py:292-299 | Every column at or after c_end is invisible to every row of the block |
| SplitGeometry.DirectBlockWorks | repro-cuda-core/kernel.py:296-317 | On the direct path a block stores its rows iff its request has KV and its loosest causal limit is not negative |
| SplitGeometry.VisibleMeansTiles | repro-cuda-core/kernel.py:298-300 | A block has a tile as soon as one of its rows sees a column of its split |
| SplitGeometry.SplitsAreShort | repro-cuda-core/kernel.py:281-286 | The pages of a split are the fewest for which the splits cover all pages |
| SplitGeometry.NothingInVain | repro-cuda-core/kernel.py:286-297 | The last column before c_end is visible to the block's last row, and the first masked tile holds a column its first row must not see |
| CopyPipeline.ReadKSafe | repro-cuda-core/kernel.py:378-408 | In every schedule of the block's threads, at QK of iteration t every share of sK holds tile t, sQ the query tile, and nothing in flight targets either |
| CopyPipeline.ReadVSafe | repro-cuda-core/kernel.py:495-521 | In every schedule, at PV of iteration t every share of sV holds tile t and nothing in flight targets it |
| CopyPipeline.NoDeadlock | repro-cuda-core/kernel.py:378-530 | Some thread can always move until all have finished. That barriers match up rests on n_tiles being the same for every thread of a block, which shares one program |
| CopyPipeline.RunSynchronised | repro-cuda-core/kernel.py:344-345 | In every reachable state no thread is past a barrier that another thread has not reached |
| CopyPipeline.RunReaches | repro-cuda-core/kernel.py:324-345 | The copy engine's state at every program point of iteration t, closed form; empty commits keep wait_group 1 meaning the same group to the last tile |
| FaMainTile.RowStep | repro-cuda-core/kernel.py:378-530 | After a tile a row's maximum, denominator and accumulator stand for exactly the visible columns seen so far |
| FaMainTile.WhollyMaskedRow | repro-cuda-core/kernel.py:446-457 | A row whose causal limit lies before its split ends with denominator 0 and accumulator 0, whatever the clamp made of its maximum |
| FaMainTile.TileIteration | repro-cuda-core/kernel.py:378-530 | One loop iteration, in step with the copy program whose schedules CopyPipeline proves safe and reading each tile where that program holds it whole, advances all 64 rows by one tile |
| FaMainTile.Accumulate | repro-cuda-core/kernel.py:324-530 | From prologue to loop end each of the 64 folded rows has accumulated exactly the visible columns of its split |
| FlashAttention.StoreDirect | repro-cuda-core/kernel.py:533-554 | The direct epilogue writes the normalised rows the block owns, and no other element of the output |
| FlashAttention.StoreSplit | repro-cuda-core/kernel.py:555-581 | The split epilogue writes the partials the block owns for its split, each standing for its share of the row, and no other |
| FlashAttention.MarkEmpty | repro-cuda-core/kernel.py:300-317 | A block without tiles marks exactly the partials it owns with -INF and writes neither po nor pl; those shares are really zero |
| FlashAttention.FaMainDirect | repro-cuda-core/kernel.py:237-583 | One direct block: owned rows become the softmax average, everything else is unchanged |
| FlashAttention.FaMainSplit | repro-cuda-core/kernel.py:237-583 | One split block: owned partials become right, everything else is unchanged |
| FlashAttention.StoresOwned | repro-cuda-core/kernel.py:538-546 | The row a lane stores to is a row its block owns, and each owned row is stored |
| FlashAttention.StoresOwnedPartial | repro-cuda-core/kernel.py:559-581 | The same for partial indexes |
| FlashAttention.PartialDecodes | repro-cuda-core/kernel.py:567-568 | The partial index is a bijection onto split, slot and head, and in bounds |
| GridOwnership.OutputStoredOnce | repro-cuda-core/kernel.py:533-554 | Over the whole grid: an element of the output is stored by the epilogue iff there is one split, its row is active and its block has a tile, and then by exactly one thread, half, pair and position; the early return stores nothing |
| GridOwnership.PartialStoredOnce | repro-cuda-core/kernel.py:555-576 | Over the whole grid: an element of a partial's accumulator row is stored iff KV is split, the row is active and the owner's block has a tile, and then by exactly one thread; rows of blocks without tiles are never stored |
| GridOwnership.MaximumStoredOnce | repro-cuda-core/kernel.py:300-317 | Every partial of every active row gets its maximum from exactly one lane of the grid: the -INF mark iff the owner's block has no tile, else the maximum together with the denominator |
| GridOwnership.StoreHitsOwnRow | repro-cuda-core/kernel.py:538-546 | A lane that passes the guard aims at a row its block owns, and takes the value of that row's accumulator |
| GridOwnership.BlockStoresAreLanes | repro-cuda-core/kernel.py:538-553 | Every row a block stores is aimed at, in each dimension, by one of its own lanes |
| FlashAttention.LaunchMainDirect | repro-cuda-core/kernel.py:237-279 | The direct grid leaves the average in exactly the active rows whose block has work, and every other element as it was |
| FlashAttention.LaunchMainSplit | repro-cuda-core/kernel.py:237-317 | After the split grid every partial that the merge will read has been written and is right |
| FlashAttention.MergeRow | repro-cuda-core/kernel.py:646-683 | The merge of a row, skipping -INF partials, gives the same average as one unsplit pass, for every number of splits |
| FlashAttention.FoldSplit | repro-cuda-core/kernel.py:652-676 | Folding split sp extends the running triple from the columns below its start to the columns below its end |
| FlashAttention.SkipSplit | repro-cuda-core/kernel.py:654-657 | A skipped split contributes nothing, so nothing changes, whatever its po and pl hold |
| FlashAttention.FaCombine | repro-cuda-core/kernel.py:599-684 | Over all slots and heads: active rows become the average, padding rows zero |
| FlashAttention.ZeroInactive | repro-cuda-core/kernel.py:691-711 | Exactly the rows at or after the active count become zero |
| Swizzle.SwizzleRoundTrip | repro-cuda-core/kernel.py:199-205 | A chunk's place is aligned, inside the tile, and determines the row and the chunk |
| Swizzle.SwizzleOnto | repro-cuda-core/kernel.py:199-205 | Every aligned place of the tile is some chunk's place |
| Swizzle.BankConflictFree | repro-cuda-core/kernel.py:199-205 | Eight aligned rows at one chunk, or eight aligned chunks of one row, use eight different 16-byte columns of a bank line |
| Swizzle.OneCopyPerChunk | repro-cuda-core/kernel.py:223-231 | Each chunk of a tile is copied by exactly one thread in exactly one pass |
| Swizzle.IssueTile | repro-cuda-core/kernel.py:223-231 | The copy loop alone, for any source of chunks: after all threads' copies the tile reads back through the swizzle as that source, with the rows at or after the end zeroed |
| TileFill.IssueKvTile | repro-cuda-core/kernel.py:211-233 | Page from the block table, row clamp and flat address included: read back through the swizzle, chunk (r, c) of the filled tile is chunk c of row r of the tile the loop computes with |
| TileFill.IssueQueryTile | repro-cuda-core/kernel.py:324-339 | The prologue's copy of the query tile with its row clamp and flat address: read back through the swizzle it is the folded query tile |
| Swizzle.OneWriterPerElement | repro-cuda-core/kernel.py:348-349 | The lane map is a bijection: each of the 64 x 256 accumulator elements is held by exactly one thread, half, pair and position |
| Swizzle.OneRowWriter | repro-cuda-core/kernel.py:577-580 | Each row has exactly one leading lane |
| LaunchPlan.CombWarpsLargest | repro-cuda-core/kernel.py:741-750 | Warps per merge block are the largest power of two up to 8 not above max(1, warps // SMs) |
| LaunchPlan.CombGridFills | repro-cuda-core/kernel.py:1032-1038 | The merge grid has at least one block per SM whenever there are as many warps as SMs |
| LaunchPlan.CombGridCovers | repro-cuda-core/kernel.py:618-623 | Every slot and head belongs to exactly one warp of one merge block, inside the grid |
| LaunchPlan.CombGridLeast | repro-cuda-core/kernel.py:1032-1038 | No block of the merge grid is without a warp to run |
| LaunchPlan.Cheapest | repro-cuda-core/kernel.py:982-991 | The argmin loop picks a candidate within 1e-9 of every considered one and strictly cheaper than every smaller one |
| LaunchPlan.ChooseSplits | repro-cuda-core/kernel.py:969-1011 | One split from two waves or 256 MB on; between half a wave and two the cheapest of 1, 2, 3, 4, 6 up to 1e-9, strictly cheaper than smaller ones; below half a wave as many splits as pages, the block target and the pages-per-split floor of the batch tier allow: one more would break one of them |
| LaunchPlan.FillSplits | repro-cuda-core/kernel.py:1005-1011 | The sub-wave choice keeps every bound of its batch tier and is maximal under them |
| LaunchPlan.CostIs | repro-cuda-core/kernel.py:982-991 | The estimate of x splits: 3 per page of the longest split in each wave, plus the partials' traffic if there are any |
| LaunchPlan.GeometryIs | repro-cuda-core/kernel.py:945-985 | Tiles and pages are the fewest that hold the longest request or all slots, and the longest KV; base blocks, KV bytes and rows follow |
| LaunchPlan.PlanCovers | repro-cuda-core/kernel.py:945-1018 | The tiles cover every query position and the row bound covers every active slot |
| PartialBuffer.RegionsDisjoint | repro-cuda-core/kernel.py:1045-1063 | The po, pm and pl regions are in bounds and no two of their elements coincide |
| PartialBuffer.StorePartials | repro-cuda-core/kernel.py:569-580 | Stores of rows, maxima and denominators through offsets of one buffer change exactly the chosen partials and no other region |
| LaunchPlan.Pool.Acquire | repro-cuda-core/kernel.py:1050-1059 | First fit or append: the first buffer that is large enough, or a new one of exactly the needed size; the pool only grows |
| LaunchPlan.Model.PlanFor | repro-cuda-core/kernel.py:942-1041 | A geometry's plan is computed once and never changed, and its number of splits is one that the choice guarantees |
| SessionClock.Clock.Start | src/atrex_runtime/session_clock.py:69-80 | A new launch replaces the whole file by an unpaused one with a new session |
| SessionClock.Clock.Reap | src/atrex_runtime/session_clock.py:82-94 | Keeps the calls whose lease was held at their probe; closes the pause only when none is left; reports whether anything changed |
| SessionClock.Clock.Now | src/atrex_runtime/session_clock.py:96-104 | The file after the reap and the reading it implies |
| SessionClock.Clock.Enter | src/atrex_runtime/session_clock.py:106-117 | The file after the reap with the call recorded, the pause starting at the second clock reading if no call was left |
| SessionClock.Clock.Leave | src/atrex_runtime/session_clock.py:118-128 | The file after a completion; a call of another session or already reaped changes nothing, and exactly a last call without a pause start raises, leaving the file as it was |
| SessionClock.LiveExactly | src/atrex_runtime/session_clock.py:82-87 | A reap keeps exactly the calls found holding their lease |
| SessionClock.ReapMeans | src/atrex_runtime/session_clock.py:82-94 | A reap charges the pause it ends with what the clock advanced in it, and with nothing if the clock went back |
| SessionClock.CompletedMeans | src/atrex_runtime/session_clock.py:118-128 | A completion removes its own call alone, if its session is still running; the last one charges the pause and ends it |
| ClockRuns.NowIsClockMinusWaiting | src/atrex_runtime/session_clock.py:96-104 | In every interleaving now() is the clock minus the measure of the union of the session's call intervals |
| ClockRuns.ReadingsAdvance | src/atrex_runtime/session_clock.py:82-128 | Two readings of a session differ by at least nothing and at most by the clock's advance |
| ClockRuns.PausedWhileCalls | src/atrex_runtime/session_clock.py:69-128 | In every reachable state the file is paused iff calls are recorded, and a live caller being served is recorded: never reaped |
| ClockRuns.DeadCallersUnpause | src/atrex_runtime/session_clock.py:82-94 | Once all recorded callers are dead, the next now() empties the calls, unpauses and charges the pause up to its clock reading |
| ClockRuns.StaleCompletion | src/atrex_runtime/session_clock.py:118-128 | A call recorded before a later start() leaves the new session's file alone whenever it completes |
| ClockRuns.StepKeepsInv | src/atrex_runtime/session_clock.py:69-128 | Every step, crashes between any two steps included, keeps the invariant whose last part says the file charges exactly the covered ticks |
| ClockRuns.RunKeepsPast | src/atrex_runtime/session_clock.py:82-128 | Within a session no step rewrites which ticks up to the horizon were covered |
| TokenReplay.Replay | experiments/production-qwen35-35b-fp8-atrex-gdn-4k256-20260814--fused-moe-fp8--l20n--claude/analysis/bash_context_tokens.py:99-162 | The event loop computes, for every trace and fragment list, the declared reads under all three rules, the compaction passes, the request list and each response's last usage snapshot, or the first malformed compaction |
| TokenReplay.ReplayStep | experiments/production-qwen35-35b-fp8-atrex-gdn-4k256-20260814--fused-moe-fp8--l20n--claude/analysis/bash_context_tokens.py:115-162 | One event: compaction, then the request, then the event's own fragments, takes the declared state after k events to the one after k + 1 |
| TokenReplay.Compact | experiments/production-qwen35-35b-fp8-atrex-gdn-4k256-20260814--fused-moe-fp8--l20n--claude/analysis/bash_context_tokens.py:117-135 | What one compaction keeps under each rule, and which fragments it passes |
| TokenReplay.Observe | experiments/production-qwen35-35b-fp8-atrex-gdn-4k256-20260814--fused-moe-fp8--l20n--claude/analysis/bash_context_tokens.py:137-157 | The first event of a response reads its chain's context once under each rule and records the preserved footprint; every event replaces the response's usage snapshot by its own |
| TokenReplay.LastUsageIsLatest | experiments/production-qwen35-35b-fp8-atrex-gdn-4k256-20260814--fused-moe-fp8--l20n--claude/analysis/bash_context_tokens.py:155-157 | The declared usage of a response is the snapshot of the latest event that brings one, and there is none iff no event does |
| TokenReplay.RequestEntry | experiments/production-qwen35-35b-fp8-atrex-gdn-4k256-20260814--fused-moe-fp8--l20n--claude/analysis/bash_context_tokens.py:137-154 | Each first event of a response has its own entry, with its chain, response, line and the tokens of the fragments it carries |
| TokenReplay.RequestCount | experiments/production-qwen35-35b-fp8-atrex-gdn-4k256-20260814--fused-moe-fp8--l20n--claude/analysis/bash_context_tokens.py:137-154 | There are as many entries as first events |
| TokenReplay.DoubleCounting | experiments/production-qwen35-35b-fp8-atrex-gdn-4k256-20260814--fused-moe-fp8--l20n--claude/analysis/bash_context_tokens.py:139-154 | Footprints summed over requests equal tokens times preserved reads summed over fragments |
| TokenReplay.RulesNest | experiments/production-qwen35-35b-fp8-atrex-gdn-4k256-20260814--fused-moe-fp8--l20n--claude/analysis/bash_context_tokens.py:99-162 | Reset reads are preserved reads are ignore reads, as sets of requests and as counts |
| TokenReplay.TotalsNest | experiments/production-qwen35-35b-fp8-atrex-gdn-4k256-20260814--fused-moe-fp8--l20n--claude/analysis/bash_context_tokens.py:182-252 | The report's three totals nest for every trace: its final assertion cannot fail |
| TokenReplay.TotalMeans | experiments/production-qwen35-35b-fp8-atrex-gdn-4k256-20260814--fused-moe-fp8--l20n--claude/analysis/bash_context_tokens.py:182-252 | A total is tokens times reads over all fragments plus the tokens of the commands |
| TokenReplay.FailsWhenMalformed | experiments/production-qwen35-35b-fp8-atrex-gdn-4k256-20260814--fused-moe-fp8--l20n--claude/analysis/bash_context_tokens.py:117-124 | The replay fails iff some compaction lacks its list of preserved messages |
| TokenReplay.FirstErrorMeans | experiments/production-qwen35-35b-fp8-atrex-gdn-4k256-20260814--fused-moe-fp8--l20n--claude/analysis/bash_context_tokens.py:117-124 | The error is that of the first malformed compaction, by kind and line |
| AdjacentThinking.Before | experiments/production-qwen35-35b-fp8-atrex-gdn-4k256-20260814--fused-moe-fp8--l20n--claude/analysis/bash_adjacent_thinking.py:102-108 | The calls a thought comes before: exactly those reached within its response |
| AdjacentThinking.After | experiments/production-qwen35-35b-fp8-atrex-gdn-4k256-20260814--fused-moe-fp8--l20n--claude/analysis/bash_adjacent_thinking.py:109-128 | The calls a thought comes after: exactly the results of the batch right before it |
| AdjacentThinking.NothingAcrossBarrier | experiments/production-qwen35-35b-fp8-atrex-gdn-4k256-20260814--fused-moe-fp8--l20n--claude/analysis/bash_adjacent_thinking.py:94-128 | No neighbour is taken across a barrier, on either side |
| AdjacentThinking.FollowsMeans | experiments/production-qwen35-35b-fp8-atrex-gdn-4k256-20260814--fused-moe-fp8--l20n--claude/analysis/bash_adjacent_thinking.py:102-108 | Field by field, which calls a thought comes before |
| AdjacentThinking.PrecedesMeans | experiments/production-qwen35-35b-fp8-atrex-gdn-4k256-20260814--fused-moe-fp8--l20n--claude/analysis/bash_adjacent_thinking.py:109-128 | Field by field, which results a thought comes after |
| AdjacentThinking.Share | experiments/production-qwen35-35b-fp8-atrex-gdn-4k256-20260814--fused-moe-fp8--l20n--claude/analysis/bash_adjacent_thinking.py:193-209 | Equal shares: every bucket gets what it is owed and the buckets together exactly what was shared |
| AdjacentThinking.OwedMeans | experiments/production-qwen35-35b-fp8-atrex-gdn-4k256-20260814--fused-moe-fp8--l20n--claude/analysis/bash_adjacent_thinking.py:205-209 | A bucket is owed, for each thought, the thought's value over its number of adjacent calls, as often as such a call lies in the bucket |
| DependencyClosure.Closure | scripts/packaging/build_gateway_standalone.py:103-136 | For every finite wheelhouse the worklist ends; it returns the names of the least closed set, which is good, or an error true of every closed set |
| DependencyClosure.Walk | scripts/packaging/build_gateway_standalone.py:120-135 | Walking one wheel's requirements with the live extras keeps the worklist invariant or finds a fault of every closed set |
| DependencyClosure.LeastExists | scripts/packaging/build_gateway_standalone.py:103-136 | There always is a least set closed under marker-enabled requirements with accumulated extras |
| DependencyClosure.LeastIsUnique | scripts/packaging/build_gateway_standalone.py:103-136 | It is unique, so the answer does not depend on the order of popping |
| DependencyClosure.SucceedsWhenGood | scripts/packaging/build_gateway_standalone.py:103-136 | The closure succeeds iff the least closed set has no missing, URL, unsatisfied or unknown-extra requirement |
| DependencyClosure.ClosedMeans | scripts/packaging/build_gateway_standalone.py:103-136 | In a closed set every requirement of a member whose marker holds for one of the member's extras is a member, asked for plainly and with all its extras |
| DependencyClosure.LeastMeans | scripts/packaging/build_gateway_standalone.py:103-136 | In the least one every name is a root or so required, and every extra is so asked for |
| DependencyClosure.GoodMeans | scripts/packaging/build_gateway_standalone.py:108-131 | A set is good iff every member has a wheel offering its extras and no active requirement is a URL, missing or unsatisfied |
| DependencyClosure.MarkGrows | scripts/packaging/build_gateway_standalone.py:117-119 | Marking a name processed with new extras makes the processed pairs strictly grow inside a finite universe: the loop ends |
| Genealogy.Search | src/atrex_runtime/direction_genealogy.py:130-144 | The depth-first search ends on every graph and finds a cycle iff the Direction is reachable from its effective parents |
| Genealogy.ValidateAncestry | src/atrex_runtime/direction_genealogy.py:87-150 | Errors in the validator's order; a cycle is reported exactly when nothing earlier applies and the Direction is reachable |
| Genealogy.Validate | src/atrex_runtime/direction_genealogy.py:68-150 | Accepts exactly the readable requests without an earlier error whose Direction is not reachable from its parents, and returns them as read |
| Genealogy.Ids | src/atrex_runtime/direction_genealogy.py:54-65 | An id list is accepted iff it is a list of at most 32 valid, distinct ids, and is then returned in its order |
| Genealogy.ParsedMeans | src/atrex_runtime/direction_genealogy.py:68-86 | A request can be read iff its id lists are acceptable and what it supersedes is an id; it is then returned as written, or as no ancestry if it names nothing |
| Genealogy.NoEarlyErrorMeans | src/atrex_runtime/direction_genealogy.py:87-128 | The exact conditions, clause by clause, under which nothing is wrong before the search |
| Genealogy.EarlyErrorMeans | src/atrex_runtime/direction_genealogy.py:87-128 | Otherwise the error is that of the first clause that fails |
| Genealogy.ExtendMeans | src/atrex_runtime/direction_genealogy.py:68-86 | Writing an accepted record adds exactly it to the history |
| Genealogy.AcceptedExactlyWhenAcyclic | src/atrex_runtime/direction_genealogy.py:130-150 | On a truthful view that shows the way to the Direction wherever there is one, acceptance is equivalent to the whole history staying acyclic |
| Genealogy.GuardsExactlyWhenWayShown | src/atrex_runtime/direction_genealogy.py:130-144 | The exact condition: on a truthful view every accepted proposal keeps the history acyclic iff the view shows the way from each Direction it shows |
| Genealogy.HiddenWayClosesCycle | src/atrex_runtime/direction_genealogy.py:130-144 | If one way is hidden, the Retry that names its start is accepted and closes a cycle |
| Genealogy.FreshShowsWay | src/atrex_runtime/gateway/journals.py:840-848 | For an id that is new to the history, as the journal always proposes, any truthful view is enough |
| Genealogy.ClosedViewShowsWay | src/atrex_runtime/direction_genealogy.py:130-144 | A view that shows every ancestor shows every way |
| Genealogy.HistoryIsSound | src/atrex_runtime/direction_genealogy.py:68-150 | Every history written through the validator on truthful views, of new ids or with the way shown, is acyclic and its supersessions are ancestry edges |
| Genealogy.SupersessionIsFinite | src/atrex_runtime/direction_genealogy.py:125-128 | Chains of supersession never repeat a Direction and are no longer than the history |
| Genealogy.HiddenAncestorBreaksIt | src/atrex_runtime/direction_genealogy.py:130-144 | The condition can fail: a sound history and a truthful view that hides a way |
| LineageSeed.SeedLineage | src/atrex_runtime/lineage_seed.py:288-482 | The imperative call, on the store, is the specified one: same tables, same outcome, at every crash point |
| SeedLaws.DoneMeans | src/atrex_runtime/lineage_seed.py:310-352 | Every success is rooted as requested: the Kernel its source names; the replacement Agent, or the named one, with the selected workflow; source identities, Evidence, receipt and choices accordingly, in the result and in the tables |
| SeedLaws.CreationMeans | src/atrex_runtime/lineage_seed.py:348-380 | A Lineage is only created in an active Campaign, with an Agent that rebuilds to itself, next to an observer of the same DSL, source and Campaign identity |
| SeedLaws.FirstKernelMeans | src/atrex_runtime/lineage_seed.py:382-433 | The first Kernel record carries the cloned baseline's evaluation, or a fresh, correct and measured one of the very same Artifact |
| SeedLaws.FirstLineageMeans | src/atrex_runtime/lineage_seed.py:447-469 | The first Lineage record and its version-0 links, also if the call stops right after writing them |
| SeedLaws.UsedKernelMeans | src/atrex_runtime/lineage_seed.py:382-400 | A Kernel that is already registered is only used if it is the right one, correct and measured |
| LineageSeed.AllResultsEqual | src/atrex_runtime/lineage_seed.py:288-482 | In every run with crashes anywhere and any other activity, all successful calls under one creation key return the same result, even after the Lineage evolved |
| LineageSeed.NextCallCompletes | src/atrex_runtime/lineage_seed.py:381-482 | Wherever earlier calls of the same request were interrupted, the next uninterrupted one succeeds iff the Campaign can be bound and is active, the roots resolve, and the Lineage exists or the observer checks pass, the Agent rebuilds to itself and a Kernel is registered or can be had |
| LineageSeed.RunStaysOnTheWay | src/atrex_runtime/lineage_seed.py:382-469 | After every crash the records that exist are right and exist in order: Kernel, Agent, Lineage |
| LineageSeed.NeverReevaluated | src/atrex_runtime/lineage_seed.py:382-433 | Once the Kernel is registered neither tables nor outcome depend on the evaluator or the clock |
| LineageSeed.AgentCarriesKernelTime | src/atrex_runtime/lineage_seed.py:433-446 | The Agent root carries the Kernel root's timestamp whichever call created it |
| LineageSeed.ExistingAcceptsSameContent | src/atrex_runtime/lineage_seed.py:644-706 | An existing Lineage is accepted iff Campaign, choices, receipt and version-0 content are the recorded ones; otherwise the call raises and changes nothing |
| LineageSeed.DoneIsDurable | src/atrex_runtime/lineage_seed.py:708-737 | A successful result is what the durable version-0 records say |
| LineageSeed.SelectedStays | src/atrex_runtime/lineage_seed.py:510-574 | Resolved roots never change, up to the part of a cloned Evidence after Epoch 0 |
| LineageSeed.SeedKeeps | src/atrex_runtime/lineage_seed.py:288-482 | A call changes no record, wherever it is interrupted |
| LineageSeed.SeedTouchesOnlyItsOwn | src/atrex_runtime/lineage_seed.py:302-310 | A call creates no record of another identity and no Campaign |
| LineageSeed.FinalizingIsElsewhere | src/atrex_runtime/registry/sqlite.py:3051-3098 | Replacing the provisional evaluation of a running Attempt's Kernel is part of the activity the run theorems allow between calls |
| LineageSeed.CloneNamesItsSource | src/atrex_runtime/lineage_seed.py:607-642 | A cloned Lineage names its source in its choices and in its receipt |
| SeedRegistry.Registry.AddKernel | src/atrex_runtime/registry/sqlite.py:2999-3049 | Insert-if-absent by identity; another Artifact, evaluation or producing Attempt is refused |
| SeedRegistry.Registry.AddAgent | src/atrex_runtime/registry/sqlite.py:2724-2762 | Insert-if-absent by creation key; the timestamp is not part of the content |
| SeedRegistry.Registry.AddLineage | src/atrex_runtime/registry/sqlite.py:3464-3518 | Insert-if-absent; a new Lineage links its version-0 Agent and Kernel |
| SeedRegistry.RegisterKernelMeans | src/atrex_runtime/registry/sqlite.py:2999-3049 | When a Kernel is accepted, which record is returned, and that nothing else changes |
| SeedRegistry.FinalizeKernelMeans | src/atrex_runtime/registry/sqlite.py:3051-3098 | Only an Attempt's Kernel can be finalized, only while the Attempt runs unless nothing changes, and only its evaluation changes |
| SeedRegistry.RegisterAgentMeans | src/atrex_runtime/registry/sqlite.py:2724-2762 | When an Agent is accepted under its creation key, which identity is returned, and that nothing else changes |
| SeedRegistry.InsertLineageMeans | src/atrex_runtime/registry/sqlite.py:3464-3518 | A Lineage is inserted once, with its version-0 links and its Kernel's DSL, and nothing else changes |
| Ablation.SeedArmInto | src/atrex_runtime/ablation.py:181-241 | The imperative call is the specified one |
| Ablation.ArmResultsEqual | src/atrex_runtime/ablation.py:181-260 | Repeating an arm after any activity returns the same result |
| Ablation.ArmMeans | src/atrex_runtime/ablation.py:196-231 | A successful arm has the source's version-0 Kernel, DSL, Epoch-0 Evidence and Evolver, the source's Agent or the replacement with the selected workflow, and the arm's optimizer or else the source's |
| Ablation.ArmCampaignMeans | src/atrex_runtime/ablation.py:196-211 | The Campaign a first call creates: the source's identity, problem model and Evolver commit, active and new |
| Ablation.MayCloneMeans | src/atrex_runtime/ablation.py:183-188 | A Lineage can be the source iff it was not cloned or its receipt says it was seeded on its own |
| Ablation.NextArmCompletes | src/atrex_runtime/ablation.py:181-241 | Wherever earlier calls for an arm were interrupted, the next uninterrupted one completes it iff the source may be cloned, the Campaign can be ensured, and the seed lacks nothing |
| Ablation.ArmIsMoves | src/atrex_runtime/ablation.py:181-260 | A call for an arm is at most two moves of a run, the Campaign and then the seed, so the run theorems apply to it |
| Ablation.ArmKeeps | src/atrex_runtime/ablation.py:181-241 | A call for an arm changes no record, wherever it is interrupted |
| Ablation.EnsureCampaignMoves | src/atrex_runtime/ablation.py:243-260 | The arm's Campaign is inserted once and kept as it is; it changes no record and touches no seed |
| Ablation.ArmIsDurable | src/atrex_runtime/ablation.py:196-241 | A successful arm leaves a Campaign of the source's identity and a durable root in it |
| Ablation.NoArmOfAnArm | src/atrex_runtime/ablation.py:184-188 | No later call can clone an arm from an arm |
| EvaluationContract.Resume | src/atrex_runtime/bootstrap.py:588-670 | A resumed call goes on iff the sealed contract is readable, not too old and what the request asks for, and then with that very contract, never with a newly built one; a new Campaign uses the request with at most a built Roofline added |
| EvaluationContract.ResumeUsesSealed | src/atrex_runtime/bootstrap.py:483-536 | A resumed Campaign raises or uses exactly its sealed contract; which one does not depend on the Roofline Builder |
| EvaluationContract.AsksForMeans | src/atrex_runtime/bootstrap.py:628-649 | Field by field, when a request asks for the sealed contract |
| EvaluationContract.PredatesMeans | src/atrex_runtime/bootstrap.py:600-627 | Exactly when a sealed Campaign is too old for a request |
| EvaluationContract.SameRequestResumes | src/atrex_runtime/bootstrap.py:600-649 | What a request was sealed with can always be resumed by it, whatever the Builder answered then or now |
| EvidenceWalk.InitialCheckpoint | src/atrex_runtime/bootstrap.py:868-886 | On every finite store, cyclic or not, the walk ends and finds an Epoch-0 checkpoint iff one is reachable, and then a reachable one |
| EvidenceWalk.IntactChainLeadsToEpochZero | src/atrex_runtime/bootstrap.py:868-886 | A chain in which each checkpoint follows the epoch before it always leads to Epoch 0 |
| Bootstrap.BootstrapLineage | src/atrex_runtime/bootstrap.py:672-866 | The imperative call, on the store and the generator's records, is the specified one: same tables, same record, same outcome, at every crash point |
| Bootstrap.Outcomes.Produce | src/atrex_runtime/composition/bootstrap.py:403-679 | The generator's two transactions: a completed outcome is returned again, an outcome alone raises, a fresh one is recorded before its run is completed |
| Bootstrap.BootKeeps | src/atrex_runtime/bootstrap.py:672-866 | A bootstrap call changes no record, wherever it is interrupted |
| Bootstrap.BootIsDurable | src/atrex_runtime/bootstrap.py:852-866 | A successful result is what the durable records say, except the Kernel timestamp, and exactly when that one differs |
| Bootstrap.BootResultsAgree | src/atrex_runtime/bootstrap.py:756-796 | Two successful calls agree on everything but that timestamp |
| BootstrapLaws.BootedMeans | src/atrex_runtime/bootstrap.py:704-866 | Every success has the requested Campaign, Lineage choices, Agent and receipt; a created Lineage has the generated Kernel and measurement, and Evidence that holds the generated report |
| BootstrapLaws.GenerateMeans | src/atrex_runtime/composition/bootstrap.py:403-679 | What the generator answers and records in each case |
| BootstrapLaws.NewRecordsMeans | src/atrex_runtime/bootstrap.py:704-826 | The Kernel and the Agent a call adds carry that call's time |
| BootstrapLaws.NewCampaignMeans | src/atrex_runtime/bootstrap.py:888-892 | The Campaign a first call adds |
| BootstrapRuns.BootStaysUnderway | src/atrex_runtime/bootstrap.py:672-866 | What exists of a bootstrap stays right through every call; an uninterrupted call succeeds iff the Campaign fits and the Lineage exists or the generator's outcome can be had |
| BootstrapRuns.RunStaysUnderway | src/atrex_runtime/bootstrap.py:672-866 | In every run, with crashes anywhere and other activity, whatever exists of a bootstrap is right and nothing exists without what comes before it |
| BootstrapRuns.NextBootCompletes | src/atrex_runtime/bootstrap.py:672-866 | Wherever earlier calls were interrupted, exactly when the next uninterrupted one completes the bootstrap |
| BootstrapRuns.CompletedConverges | src/atrex_runtime/composition/bootstrap.py:403-428 | Once the generator's run is recorded as completed, every later uninterrupted call completes the bootstrap, without generating again |
| BootstrapRuns.OutcomeAloneIsStuck | src/atrex_runtime/composition/bootstrap.py:416-419 | A bootstrap caught between the outcome and its completed run never completes and never gets a Lineage |
| BootstrapRuns.StuckIsReached | src/atrex_runtime/composition/bootstrap.py:645-679 | A first call interrupted there leaves that state |
| BootstrapRuns.AllBootsAgree | src/atrex_runtime/bootstrap.py:756-796 | All successful calls of a run for one Lineage agree up to the Kernel timestamp |
| BootstrapRuns.BootTouchesOnlyItsOwn | src/atrex_runtime/bootstrap.py:704-718 | A call creates no record of another Lineage |
| BootstrapRuns.BootIsElsewhere | src/atrex_runtime/bootstrap.py:672-866 | For the seeds' runs a bootstrap call is part of the activity elsewhere |
| BootstrapRuns.SeedIsOtherwise | src/atrex_runtime/lineage_seed.py:288-482 | For the bootstraps' runs a seed call is part of the other activity |
| BootstrapRuns.RetryNeedsTheSameBaseline | src/atrex_runtime/bootstrap.py:672-866 | Had the generator forgotten its outcome and answered anew, an uninterrupted call would complete iff the Kernel is not registered or the answer repeats the recorded Kernel and measurement |
| BootstrapRuns.HalfwayIsReached | src/atrex_runtime/bootstrap.py:743-835 | A first call interrupted after the Kernel leaves these tables and a completed outcome |
| BootstrapRuns.CompletingCallReportsAnotherTime | src/atrex_runtime/bootstrap.py:827-860 | A concrete run in which two successful calls report different Kernel timestamps |

## Left out

- LaunchPlan.Model.Forward: exact reals stand for bf16, f16 and f32, so rounding, `ex2.approx` error and value packing are not captured; index arithmetic is unbounded where the device uses 32 and 64 bits.
- FlashAttention.LaunchMainSplit: blocks run one after the other; that they may run at once rests on the proved disjointness of their stores, not on a model of concurrent memory.
- FaMainTile.TileIteration: a tile product is an exact dot product per row and column; the `mma` and `ldmatrix` fragment layouts inside a warp are not modelled, only the lane maps used for copies and stores.
- CopyPipeline.ReadKSafe: a thread's copies land one group at a time and each thread waits for its own groups; partial landing inside a group is not modelled.
- Swizzle.IssueTile: the threads' copies are performed one after the other; by `Swizzle.OneCopyPerChunk` no two touch the same place.
- Module loading, streams, the launch descriptors' caching across graph captures, tensor plumbing and the operator's dtype and shape rejections.
- ClockRuns.NowIsClockMinusWaiting: time is counted in whole ticks of a clock that never goes back; the file's JSON format, symbolic links and directory permissions are not modelled; atomic replacement and crash-released leases are taken as given.
- TokenReplay.Replay: one tokenizer at a time; the diagnostic counters, sums over compactions and first events, would only add easy members; fragments are given, so `prepare_fragments` and its tokenizing are not part of the model.
- AdjacentThinking.Share: shares are exact reals and one counter at a time; building the node lists from blocks is not part of the model.
- DependencyClosure.Closure: marker evaluation, specifiers and name canonicalisation are given functions and values; reading the wheel files is not part of the model.
- Genealogy.Validate: id syntax is one bit per entry; `suggestion_availability`, `relationship_fields` and derived ids would only add easy members.
- Genealogy.HistoryIsSound: that the journal's views are truthful is an assumption about code outside the model.
- LineageSeed.SeedLineage: Artifact verification is a fixed table of kinds, workflow selection a fixed function, digests are injective, Evidence is a chain of which only Epoch 0 is cloned; error messages are one outcome; concurrent calls under one key and the `lineage.seeded` event, which a crash can lose, are not modelled.
- SeedRegistry.Registry.AddKernel: parent revisions and the lookup by producing Attempt are not modelled; the roots of Lineages have neither.
- Bootstrap.BootstrapLineage: source import, the hardware resolver, the problem generator and the parallel execution of several Lineages are not modelled; the Evidence walk is a total function here and is proved on arbitrary stores in `EvidenceWalk`; the checks that generated Artifacts have the right kind are not modelled.
- Bootstrap.Outcomes.Produce: what the generator does before its outcome is committed (sessions, finalization checkpoints, infrastructure retries) is one answer given from outside; restoring or migrating the gateway's history by hand is not modelled.
- BootstrapRuns.RunStaysUnderway: one creation key stands for one request, as `Agrees` says.
- EvaluationContract.Resume: all trusted fields that only take part in the equality are one value.
- Selection, ablation plans, maintenance, roofline building, source validation, the gateway service and every presentation view.
