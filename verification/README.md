# A verified model of the Aegis inference engine

This project models, in Dafny, the parts of the engine that replace a simple mathematical object with something
faster and more stateful, and proves that they still compute the simple object:

- **Serving.** The bitmap page allocator (`PagePool.dfy`), the continuous-batching scheduler over it
  (`Batching.dfy`), the greedy token choice (`Sampling.dfy`) and the engine's step (`Engine.dfy`) are classes and
  methods proved equal to functions on a value, `State`. About those functions: pages are conserved and every
  running sequence has room (`Conservation.dfy`, `Serving.dfy`); no request is lost (`Requests.dfy`); the queues
  drain within a bound known beforehand, despite preemption (`Draining.dfy`); over whole runs with arrivals, what is
  returned is what is appended, without stutter, and first admissions are in order of submission (`Histories.dfy`);
  which requests the pool can serve at all (`Provisioning.dfy`): exactly those are retired, within a bound known when
  they are submitted (`Draining.dfy`, `Liveness.dfy`); and a sequence that asks for more pages than there are blocks
  those behind it (`Blocking.dfy`).
- **Concurrency.** The same allocator used by any number of threads, with compare-and-swaps that may fail for no
  reason (`ConcurrentPool.dfy`), and exactly when its `None` can be trusted (`SpuriousNone.dfy`); and the parallel map
  over the batch, loads and stores interleaved in any way (`ParallelStep.dfy`), which on the engine's own work leaves
  the slab of the sequential loop (`ParallelLayer.dfy`), and loads the same bytes under every interleaving exactly when
  the layout is free of races (`Races.dfy`).
- **Paged memory.** The addresses of writer and reader (`KvLayout.dfy`), a machine whose events are admissions,
  writes, appended tokens, growth, preemption and finishing (`PagedMemory.dfy`), the engine's step as such events
  (`EngineMemory.dfy`), and attention on top (`AttentionMemory.dfy`): a position read through the block table holds
  what its sequence last wrote there. Which positions a sequence has written (`WrittenPositions.dfy`) and which
  layers find their own tokens (`LayerCache.dfy`) is stated exactly.
- **Attention.** The tiled online softmax is dense softmax, for every tile size (`Softmax.dfy`,
  `FlashAttention.dfy`).
- **Ternary weights.** Packing Q8_0 blocks to bitmasks (`WeightLoader.dfy`), the 64-lane kernel with machine-width
  arithmetic against the scalar loop (`TernaryKernel.dfy`), the projection and exactly when it is exact
  (`Projection.dfy`), its rows from the blocks alone (`TernaryRows.dfy`), and the byte-mask kernel (`ByteMask.dfy`).
- **Smaller loops.** The absmax quantiser (`Quantiser.dfy`), rotary embedding in both layouts (`Rope.dfy`) and its dot
  products (`RopeDots.dfy`), the ring buffer (`RingCache.dfy`), and the GGUF reader: its round trip in both directions
  (`Encoding.dfy`, `Metadata.dfy`, `Gguf.dfy`, `GgufCanonical.dfy`), what it reads byte by byte (`GgufBytes.dfy`), and
  the start of the tensor data (`Alignment.dfy`, `DataStarts.dfy`).

`Word64.dfy` holds the machine words, as natural numbers with their bits; `Arithmetic.dfy` products, sums and slices.

Methods are proved equal to functions, and what these functions compute is stated apart from them, from inputs,
bytes and bits alone; the names of such lemmas end in `Means`, `Bytes` or `Held`.

## What is assumed

- `exp`, `sin` and `cos` are parameters; the laws used of them (positive, monotone, sum laws, parity) are in `requires`
  clauses. Reals stand for `f32`.
- What the transformer computes in a step (the K and V vectors and the logits) is an arbitrary oracle.
- Prompts are not empty: the engine subtracts one from the prompt's length (src/engine/mod.rs:110). Counters are
  natural numbers; sizes that fit `u32` never reach the difference.
- In the serving model the pool is used by its scheduler alone, and a compare-and-swap succeeds the first time;
  the concurrent model has neither restriction.
- Whole-run statements about requests take their ids to be distinct, or not in use when they arrive; conservation and
  coverage do not.
- Runs without arrivals start from any state that a run with arrivals can reach (`Draining.Underway`,
  `Histories.AlwaysConsistent`).
- `fast_simd_inference` and the kernel use wrapping 32-bit sums, as in a release build.

## What the code does not do

Some properties hold only under a condition, and the model states the exact one.

- A sequence's `num_tokens` starts at the length of its prompt (src/scheduler/batching.rs:63), so the prefill branch
  (src/engine/mod.rs:110-112) is never taken and no prompt position is ever written; and a preempted sequence is
  admitted again at its new length, with fresh pages. Attention reads from position 0. Of what it reads, exactly the
  positions from the latest admission on have been written since that admission (`WrittenPositions.WrittenExactly`,
  `WrittenPositions.AttentionSeesFromAdmission`); position 0 never has.
- KV addresses carry no layer index: after a step the slab holds the last layer's tokens (`LayerCache.LastLayerStays`),
  and every layer's tokens are still there exactly when there is at most one layer (`LayerCache.LayersKeptIffOne`).
- Writer and reader place K and V differently in general: the writer uses the K/V head count and half a page, the
  reader the head count it is given and 16 tokens' width. They agree exactly when the head counts are equal and the
  width is even (`KvLayout.AgreeIffCompatible`). With grouped query heads, reads leave the page exactly when heads
  have more than one byte or outnumber the K/V heads rounded up to an even number (`KvLayout.GroupedHeadsLeavePage`).
  The comment at src/attention/flash_cpu.rs:93 describes the reader only.
- The parallel map of a layer leaves the slab of the sequential loop for every head count
  (`ParallelLayer.ParallelSlab`). What its workers load is the same under every interleaving exactly when both
  sections for the head count that attention is given fit in a page, or the pool has at most one page, or it has two
  and the sections reach no further than the first slot of the next page (`Races.DeterministicIffRaceFree`); with
  grouped query heads of more than one byte the sections never fit.
- A call that finds no free page saw every word zero, but not at one instant: the pool really was empty at some
  instant of every such call exactly when it has at most 64 pages (`SpuriousNone.NoneRightIffOneWord`).
- Outputs are matched to sequences by id: every running sequence gets a token exactly when no two share an id
  (`Requests.OneEachIffDistinct`).
- A row of weights is scaled by the block in which it starts; the projection is exact exactly when no other scale
  occurs in the row and its sums fit in 32 bits (`Projection.ExactIffOneScale`). A block count below the row's start
  falls back to the scale 1.
- The kernel is exact for all inputs exactly below 2^24 weights (`TernaryKernel.ExactIffBelowBound`). The comment at
  src/simd/avx512_bw.rs:16 speaks of four accumulators; there are two.
- Masks are allotted `ceil(cols / 8)` bytes for each row and read with a stride of `cols / 8`; the two agree exactly
  for whole bytes (`ByteMask.ReadIffWholeBytes`).
- The last token is banned, but repeats exactly when there is nothing else to choose, as with a vocabulary of one
  token (`Sampling.RepeatsOnlyIfForced`).
- An alignment in the metadata that is not a power of two misplaces the tensor data of some file, and only such an
  alignment does (`DataStarts.DataStartAligned`).
- Not every request is retired: exactly those are whose prompt leaves a page to spare, and whose prompt and budget
  together fit in the pool (`Provisioning.Servable`, `Draining.DrainsIffServable`, `Liveness.RetiredIffServable`,
  `Liveness.OnlyServableRetired`). A sequence that asks for more pages than the pool has is never admitted, and nothing
  behind it is (`Blocking.StaysQueued`, `Blocking.NoneAdmittedFromOversize`).
- A request is given `max_new_tokens` tokens, except that one with `max_new_tokens` of zero is given one
  (`Provisioning.Budget`).

## Model

| member | source | states |
|---|---|---|
| `PagePools.PagePool.constructor` | src/kv_cache/page_pool.rs:45-80 | A new pool has a zeroed slab, the stride `32 * heads * dim` rounded up to a multiple of 64, and exactly the pages 0 to `total_pages - 1` free. |
| `PagePools.PagePool.AllocPage` | src/kv_cache/page_pool.rs:85-112 | Returns the least free page and takes exactly that page from the free set; returns None exactly when no page is free, and then changes nothing. |
| `PagePools.PagePool.FreePage` | src/kv_cache/page_pool.rs:116-122 | Adds exactly the given page to the free set. |
| `PagePools.ClearLowest` | src/kv_cache/page_pool.rs:92-105 | Clearing the lowest bit of the first non-zero word takes the least free page; that page is always below `total_pages`, so the inner `return None` is not reached. |
| `Alignment.RoundUp64IsMask` | src/kv_cache/page_pool.rs:46-50 | The mask expression `(x + 63) & !63` in 64-bit arithmetic is the least multiple of 64 not below `x`. |
| `ConcurrentPool.SwapTakesFreePage` | src/kv_cache/page_pool.rs:94-106 | When pages are partitioned, a successful compare-and-swap hits a free page of the pool and clears its bit only; it never returns None. |
| `ConcurrentPool.StepKeepsPartition` | src/kv_cache/page_pool.rs:85-122 | Whatever one thread does next (load, skip, successful swap, failed swap with or without cause, give up, release a page it holds), free bits and held pages still partition the pool and no page has two holders. |
| `ConcurrentPool.SwapOnTheSet` | src/kv_cache/page_pool.rs:94-104 | Each success takes effect at its swap: seen as a set of free pages, the swap removes the one page it returns. |
| `ConcurrentPool.OthersOnTheSet` | src/kv_cache/page_pool.rs:85-122 | A release adds its page at the fetch-or; no other action changes the free set. |
| `ConcurrentPool.AlwaysPartitioned` | src/kv_cache/page_pool.rs:85-122 | For any number of threads and any interleaving, the partition holds at every point of every run. |
| `ConcurrentPool.NoneMeansEachSeenZero` | src/kv_cache/page_pool.rs:86-111 | A call that returns None saw every word zero, each at some instant between its start and its return. |
| `ConcurrentPool.NoneIsGenuine` | src/kv_cache/page_pool.rs:86-111 | If no page is released while such a call runs, the pool really is empty when it returns None. |
| `SpuriousNone.NoneCanBeWrong` | src/kv_cache/page_pool.rs:86-111 | For every pool of more than 64 pages there is a run, from all pages free, in which a call returns None though the pool was never empty while it ran: a page is released behind its scan and another taken ahead of it. |
| `SpuriousNone.NoneRightIffOneWord` | src/kv_cache/page_pool.rs:86-111 | Every None, of every run, comes from a call during which the pool was empty at some instant exactly when the pool has at most 64 pages. |
| `Batching.Scheduler.constructor` | src/scheduler/batching.rs:51-58 | Both queues empty, over the given pool, for a batch of at most 16. |
| `Batching.Scheduler.AddRequest` | src/scheduler/batching.rs:60-71 | Appends a waiting sequence to the queue, with `num_tokens` already at the prompt length; nothing else changes. |
| `Batching.Scheduler.MapPages` | src/scheduler/batching.rs:79-88 | Maps the least free pages in ascending order until there are enough or the pool is empty, and says which; what is left is the rest of the free set. |
| `Batching.Scheduler.FreePages` | src/scheduler/batching.rs:89-92 | Returns every page of the list to the free set. |
| `Batching.Scheduler.TryAdmit` | src/scheduler/batching.rs:74-101 | Admits the head of the queue with the least free pages, or, when there are too few, leaves queues and free set exactly as they were. |
| `Batching.Scheduler.PromoteWaiting` | src/scheduler/batching.rs:73-102 | Turns queues and free set into the specified promotion of them, and stops with 16 sequences running, an empty queue, or a head that asks for more pages (its tokens by sixteens, rounded up, and one more) than are free; a failed promotion restores the free set exactly. |
| `Batching.Scheduler.Evict` | src/scheduler/batching.rs:119-122 | Removes one sequence from the batch and frees exactly its pages. |
| `Batching.Scheduler.CleanOne` | src/scheduler/batching.rs:111-144 | One iteration of the cleanup loop is one step of the specified sweep, with the id of what it finishes. |
| `Batching.Scheduler.PostStepCleanup` | src/scheduler/batching.rs:108-146 | Turns queues and free set into the specified sweep of them (finish, grow, preempt) and returns the ids of the finished in order. |
| `Batching.TakeSplits` | src/scheduler/batching.rs:81-88 | Pages mapped and pages left are the free set, each page once. |
| `Conservation.PromoteOrder` | src/scheduler/batching.rs:73-102 | Promotion admits a prefix of the waiting queue, in order, behind the sequences already running: each is as it was, but running, with `ceil(num_tokens / 16) + 1` pages mapped. It changes no other sequence. |
| `Conservation.PromoteIsMaximal` | src/scheduler/batching.rs:74-95 | From a batch of at most 16, promotion stops only with 16 sequences running, an empty queue, or a head that asks for more than the free pages, `(num_tokens + 15) / 16 + 1` of them. |
| `Conservation.PromoteKeeps` | src/scheduler/batching.rs:73-102 | Promotion keeps conservation of pages, the shape of both queues, the batch limit and block-table coverage. |
| `Conservation.CleanupKeeps` | src/scheduler/batching.rs:108-146 | From a batch at most one page short, cleanup restores coverage with one page of growth for each sequence, keeps conservation, and leaves no exhausted sequence. |
| `Conservation.SweepStepMeans` | src/scheduler/batching.rs:111-144 | The cleanup of one running sequence, field by field: retired and its pages freed when it has generated its maximum; left alone while its pages have room for a token more, at 16 to a page; else given the least free page; else, with none free, sent to the head of the queue without its pages. |
| `Conservation.Exclusive` | src/scheduler/batching.rs:97-98 | A mapped page is in the pool, not free, mapped once, and mapped by one sequence. |
| `Conservation.AdmitConserves` | src/scheduler/batching.rs:96-100 | Admission keeps free pages and mapped pages a duplicate-free partition of the pool. |
| `Conservation.GrowConserves` | src/scheduler/batching.rs:127-129 | So does growth by one page. |
| `Conservation.ReleaseConserves` | src/scheduler/batching.rs:119-140 | So do finishing and preempting, which return all pages of a sequence. |
| `Sampling.ArgmaxF32` | src/engine/mod.rs:12-34 | The penalty pass, the ban and the scan choose a token that beats every other (50 off a logit for each occurrence, the last token banned, the later of equal ones), for any logits and any earlier tokens. |
| `Sampling.ChoiceMeans` | src/engine/mod.rs:12-34 | Against any other token that was not the last: the choice was not the last either, and its logit less 50 for each occurrence is at least as large, and larger if the other comes later. |
| `Sampling.GreedyUnique` | src/engine/mod.rs:28-33 | A token beats every other exactly when it is the choice. |
| `Sampling.ArgmaxUnique` | src/engine/mod.rs:28-33 | That choice is the only token that none beats and no later one matches. |
| `Sampling.RepeatsOnlyIfForced` | src/engine/mod.rs:21-26 | The last token is chosen again exactly when there is nothing else to choose: the hard ban on stutter, with its one exception. |
| `Serving.ApplyMoves` | src/engine/mod.rs:103-120 | Applying outputs moves each running sequence by appended tokens only and leaves its pages alone, even when ids repeat. |
| `Serving.AppliedOk` | src/engine/mod.rs:103-120 | After the outputs are applied, every running sequence is at most one page short, even when all outputs go to one sequence, because the batch limit is the page size. |
| `Serving.StepKeeps` | src/engine/mod.rs:93-141 | Page conservation, the shape of the queues and coverage hold from step to step, whatever the logits. |
| `Serving.SubmitKeeps` | src/engine/mod.rs:83-89 | Submitting a non-empty prompt keeps them too. |
| `Requests.ApplyEach` | src/engine/mod.rs:103-120 | With distinct ids, each output advances the sequence it was computed for, once. |
| `Requests.FilterKeepsAll` | src/engine/mod.rs:122-137 | The filter is the identity when every sequence has generated. |
| `Requests.FilterMeans` | src/engine/mod.rs:122-137 | An output is returned, as often as it occurs, exactly when the first sequence with its id has generated a token. |
| `Requests.StepAppends` | src/engine/mod.rs:101-137 | With distinct ids every running sequence receives its chosen token: one token more in its tokens, its position and its count, and nothing else changes; all outputs are returned. |
| `Requests.OneEachIffDistinct` | src/engine/mod.rs:101-120 | Every running sequence gets one token from a step exactly when no two of them share an id: of two that do, the later gets none. |
| `Requests.StepKeepsRequests` | src/engine/mod.rs:93-141 | No request is lost, duplicated or altered by a step, preemption included: each stays live or is retired with its original prompt and budget. |
| `Provisioning.StepSound` | src/scheduler/batching.rs:73-146 | With distinct ids a step keeps this: a running sequence has at least the pages its original prompt asked for, and a waiting one has not run or was preempted with its pages full; and the pool was large enough for prompt and tokens of every sequence it retires. |
| `Provisioning.ParkedFits` | src/scheduler/batching.rs:75-76 | So a waiting sequence of a servable request never asks for more pages than the pool has, however often it was preempted. |
| `Draining.PromoteRuns` | src/scheduler/batching.rs:73-102 | While anything is live and the live requests are servable, promotion leaves something running. |
| `Draining.StepWork` | src/engine/mod.rs:93-141 | With distinct ids, servable or not: a step takes exactly the number running off the tokens owed, and what is retired has been given exactly `max(1, max_new_tokens)` tokens. |
| `Draining.StepProgress` | src/engine/mod.rs:93-141 | With distinct ids and servable requests: every step with live requests runs at least one of them, the tokens still owed drop by exactly the number running, and what is retired has been given exactly `max(1, max_new_tokens)` tokens. |
| `Draining.RunProgress` | src/engine/mod.rs:93-141 | Over a run without arrivals and with distinct ids, what is retired has its full budget; and if the requests are servable the tokens owed drop by at least one for each step while anything is live. |
| `Draining.RunAccounted` | src/engine/mod.rs:93-141 | Over any run the live and the retired together are the requests it began with. |
| `Draining.Drains` | src/engine/mod.rs:93-141 | With distinct ids, servable requests and no arrivals: after as many steps as tokens are owed, both queues are empty, every page is free, and every request has been retired with its prompt followed by exactly its budget of tokens, despite preemption. |
| `Draining.RunRetiresServable` | src/engine/mod.rs:93-141 | A run without arrivals and with distinct ids never retires a request that is not servable, however long it is. |
| `Draining.DrainsIffServable` | src/engine/mod.rs:93-141 | So, with distinct ids, a run without arrivals retires every request within as many steps as tokens are owed exactly when every request is servable: its prompt leaves a page to spare, and prompt and budget fit in the pool. |
| `Histories.AlwaysConsistent` | src/engine/mod.rs:83-141 | At every point of every run with arrivals, pages and requests are conserved, every running sequence has room, and the pages of running and the lengths of waiting sequences are as `Provisioning.StepSound` has them. |
| `Histories.StepTraced` | src/engine/mod.rs:93-141 | A step appends to each request's returned tokens what it appends to its prompt, and never a token equal to its predecessor. |
| `Histories.OutputsAreTheTokens` | src/engine/mod.rs:93-141 | At every point of every run with a vocabulary of two or more: the tokens returned for a request are, in order, those appended to its prompt; none equals its predecessor; the retired have their full budget. |
| `Histories.PromoteInOrder` | src/scheduler/batching.rs:73-102 | Sequences promoted for the first time are the next submitted, however many preempted ones stand before them. |
| `Histories.AdmissionInOrder` | src/scheduler/batching.rs:60-146 | At every point of every run the waiting queue is preempted sequences followed by never-run requests in submission order, first promotions happened in submission order, and at most 16 sequences are active; active and preempted together are at most 16 too. |
| `Liveness.RetiredInTime` | src/engine/mod.rs:83-141 | Liveness with arrivals: in every run whose requests are servable, a request is retired with its whole budget within a number of steps computed from the queues when it was submitted (`StepsNeeded`), whatever is submitted afterwards and however often sequences are preempted. |
| `Liveness.OnlyServableRetired` | src/engine/mod.rs:83-141 | In every run, only servable requests are ever retired. |
| `Liveness.RetiredIffServable` | src/engine/mod.rs:83-141 | So, whatever servable requests arrive later, all requests submitted by a point are retired within `StepsNeeded` steps from there exactly when they are all servable. |
| `Liveness.TickWorks` | src/engine/mod.rs:93-141 | With servable requests: in every step while an earlier request is live, the work owed to earlier requests drops, or it stays and the work owed to later ones that have run drops. |
| `Liveness.LateBounded` | src/scheduler/batching.rs:73-146 | Servable later requests that have run and are unfinished never owe more than a batch of pool-sized budgets together. |
| `Liveness.EarlyFirst` | src/scheduler/batching.rs:60-71 | Among requests that have never run, those submitted earlier stand ahead in the queue. |
| `Blocking.PromoteStopsBefore` | src/scheduler/batching.rs:74-95 | Promotion never gets past a sequence that asks for more pages than are free. |
| `Blocking.StaysQueued` | src/scheduler/batching.rs:73-146 | In every run a queued sequence that asks for more pages than the pool has stays in the queue for ever: from then on the queue ends with it, with everything that was behind it, and with all that has arrived since, in order. |
| `Blocking.NoneAdmittedFromOversize` | src/scheduler/batching.rs:73-102 | In every run a request whose prompt asks for more pages than the pool has is never admitted, and no request submitted after it is. |
| `KvLayout.WriteInPage` | src/engine/mod.rs:190-209 | Every K and V byte is written inside the sequence's page, for all head counts and dimensions. |
| `KvLayout.PageInSlab` | src/kv_cache/page_pool.rs:51-51 | Every page of the pool lies inside the slab. |
| `KvLayout.WriteInjective` | src/engine/mod.rs:190-209 | Page, K or V, slot and byte determine the address and are determined by it. |
| `KvLayout.HeadOffsetInjective` | src/engine/mod.rs:189-195 | Head and dimension name each byte of a token once. |
| `KvLayout.AgreeIffCompatible` | src/attention/flash_cpu.rs:51-96 | Attention's addresses are the writer's for every cell exactly when it is given the K/V head count and a token's vector has an even number of bytes. |
| `KvLayout.ReadsInPageIff` | src/attention/flash_cpu.rs:51-96 | Attention stays inside the pages of its block table exactly when both sections for its head count fit in a page. |
| `KvLayout.GroupedHeadsLeavePage` | src/engine/mod.rs:215-230 | With more query heads than K/V heads, as the engine calls it, reads leave the page exactly when heads have more than one byte, or there are more of them than the K/V heads rounded up to an even number. |
| `PagedMemory.WriteTokenCell` | src/engine/mod.rs:187-213 | Storing a token sets its own cells to the codes and leaves every other cell of the slab. |
| `PagedMemory.PlacesDiffer` | src/scheduler/batching.rs:27-33 | Two positions of one sequence, or positions of two sequences, never share page and slot. |
| `PagedMemory.WriteKeeps` | src/engine/mod.rs:184-213 | A write leaves what every sequence has written, at every other position, in place. |
| `PagedMemory.AdmitKeeps` | src/scheduler/batching.rs:96-100 | So does admission, which starts a residency with nothing written. |
| `PagedMemory.ApplyKeeps` | src/engine/mod.rs:103-120 | So does appending tokens. |
| `PagedMemory.SweepKeeps` | src/scheduler/batching.rs:111-144 | So do growth, preemption and finishing. |
| `PagedMemory.AlwaysOk` | src/engine/mod.rs:93-141 | So does any sequence of these events, in any order. |
| `PagedMemory.ReadsLogged` | src/attention/flash_cpu.rs:51-102 | Reading a position through the block table, as attention does, gives what the sequence last wrote there since it was admitted (same head count, even width). |
| `PagedMemory.ReadsBackLastWrite` | src/attention/flash_cpu.rs:51-102 | The same after any run of events from an empty pool: paged memory refines a flat array for each sequence. |
| `PagedMemory.PromptNeverWritten` | src/engine/mod.rs:110-112 | Under any order of events no position of a prompt is ever written, since the prefill branch is never taken; which positions are written in the engine's own runs is `WrittenPositions.WrittenExactly`. |
| `Engine.AegisEngine.constructor` | src/engine/mod.rs:43-81 | A pool with every page free and empty queues over it. |
| `Engine.AegisEngine.AddSequence` | src/engine/mod.rs:83-89 | Adds the request to the queue and leaves pool and slab alone. |
| `Engine.TokenMeans` | src/engine/mod.rs:188-213 | The token a sequence stores has the codes of its K vector as K and those of its V vector as V: each code is 127 times the value over the largest magnitude of the vector (1e-9 if that is less), its fraction dropped. |
| `Engine.LayerIsHeld` | src/engine/mod.rs:184-213 | After a layer every sequence finds its own vectors, byte by byte: the codes of K from its page, slot and width on, those of V half a page further, whatever the others stored in between. |
| `Engine.LayersOthers` | src/engine/mod.rs:169-213 | Bytes that belong to no running sequence's position are as they were before the step. |
| `Engine.StepIsHeld` | src/engine/mod.rs:169-264 | After all layers every sequence that ran finds the codes of its K and V vectors of the last layer, and nothing else has changed. |
| `Engine.StepGreedy` | src/engine/mod.rs:319-323 | With distinct ids the outputs of a step are, for each sequence that ran, its id and the greedy choice from its own logits and tokens. |
| `Engine.AegisEngine.WriteHead` | src/engine/mod.rs:196-198 | The byte loop splices one head's codes into the slab. |
| `Engine.AegisEngine.WriteSection` | src/engine/mod.rs:187-199 | The head loop stores the whole vector's codes contiguously, quantised with the vector's own absmax. |
| `Engine.AegisEngine.StoreToken` | src/engine/mod.rs:184-213 | Stores the quantised K and V of a sequence's current position at its page and slot, and nothing else. |
| `Engine.AegisEngine.StoreLayer` | src/engine/mod.rs:169-264 | One layer, in the order of the batch: every sequence finds the codes of its K and V vectors at its position, and bytes of no sequence's position stay. That every interleaving of the parallel map leaves the same slab is `ParallelLayer.ParallelSlab`. |
| `Engine.AegisEngine.ChooseTokens` | src/engine/mod.rs:271-325 | One greedy choice for each running sequence, under its own id. |
| `Engine.AegisEngine.StepBatch` | src/engine/mod.rs:143-326 | The slab holds the codes of the last layer's K and V vectors for every sequence, and is otherwise unchanged; one greedy choice for each sequence under its id. |
| `Engine.AegisEngine.ApplyAll` | src/engine/mod.rs:103-120 | Each output advances the first sequence with its id, by the branch its position calls for. |
| `Engine.AegisEngine.Filter` | src/engine/mod.rs:122-137 | Keeps the outputs whose sequence has generated something. |
| `Engine.AegisEngine.FinishStep` | src/engine/mod.rs:103-140 | Applies, filters and cleans up, in this order. |
| `Engine.AegisEngine.StepForward` | src/engine/mod.rs:93-141 | One step leaves queues, free set and outputs as the specified step does and keeps the engine valid; the slab holds, for every sequence that ran, the codes of its K and V vectors of the last layer at its page and slot, and is otherwise unchanged; with distinct ids each output is its sequence's greedy choice; with nothing running it stores and returns nothing. |
| `EngineMemory.LayersLog` | src/engine/mod.rs:150-264 | After all layers each sequence has written its token of the last layer, whose codes are those of its K vector and its V vector, and nothing else. |
| `EngineMemory.StepMemory` | src/engine/mod.rs:93-141 | The step, seen as memory events, ends in the engine's queues and slab; every sequence that ran has logged its token of the last layer at the position it was at, and the slab agrees with what every resident sequence logged. |
| `EngineMemory.AlwaysReady` | src/engine/mod.rs:83-141 | From an empty pool, through any number of steps and arrivals, the slab agrees with the logs and pages, queues and coverage are as they should be, repeated ids included. |
| `WrittenPositions.AlwaysSettled` | src/engine/mod.rs:83-141 | In every run of steps and arrivals under ids not in use, with one layer or more, every log holds exactly the positions from the latest admission to the current one. |
| `WrittenPositions.WrittenExactly` | src/engine/mod.rs:103-120 | So, between steps, a running sequence has written a position exactly when it lies between its `num_tokens` at its latest admission and its `num_tokens` now; the admission lies beyond the prompt, so a preempted sequence loses what it generated before. |
| `WrittenPositions.AttentionSeesFromAdmission` | src/engine/mod.rs:215-230 | Of the positions attention is given inside a step, after a layer or more has been stored, it sees the codes its sequence has written since its latest admission at exactly those from that admission on, for every head, K and V and dimension; position 0 is never one of them. |
| `LayerCache.LastLayerStays` | src/engine/mod.rs:150-264 | After a step the cells of every sequence that ran, at the position it was at, hold its token of the last layer. |
| `LayerCache.StepMemoryHolds` | src/engine/mod.rs:169-213 | In bytes: the codes of its K vector of the last layer and, half a page on, of its V vector; and what belongs to no running sequence's position is unchanged. |
| `LayerCache.LayersKeptIffOne` | src/engine/mod.rs:187-209 | A step with something running leaves the tokens of every layer in place, whatever the transformer computes, exactly when there is at most one layer. |
| `ParallelStep.ExecuteAsIfAlone` | src/engine/mod.rs:169-264 | Workers that do not write what others touch each load and store as if alone, however single loads and stores interleave. |
| `ParallelStep.ScheduleDoesNotMatter` | src/engine/mod.rs:169-264 | Any two complete schedules end in the same slab with the same loads: the parallel map has one outcome, that of any sequential order. |
| `ParallelStep.ScheduleKeepsSlab` | src/engine/mod.rs:169-264 | If only the stores are apart, any two complete schedules still end in the same slab. |
| `ParallelStep.LayerStoresApart` | src/engine/mod.rs:184-213 | Running sequences own their pages, so no worker stores where another does, whatever the head count. |
| `ParallelStep.LayerTasksIndependent` | src/engine/mod.rs:169-264 | If the layout is free of races (`RaceFree`: both sections for the head count fit in a page, or the pool is too small for two sequences to reach each other), no worker loads what another stores either. |
| `ParallelLayer.EngineTasksQualify` | src/engine/mod.rs:169-230 | The workers of a layer, each storing the K and V codes of its token and loading any elements attention may read, in any order, stay in the slab if what they load does; their stores are apart; and they are independent if the layout is free of races. |
| `ParallelLayer.FittingReadsStay` | src/engine/mod.rs:215-230 | When both sections fit in a page, everything attention may read is in the slab. |
| `ParallelLayer.AloneStores` | src/engine/mod.rs:184-213 | The single stores of one worker are the write of its token to page and slot. |
| `ParallelLayer.ParallelSlab` | src/engine/mod.rs:169-230 | Whatever the head count, as long as loads stay in the slab: every complete interleaving of the workers' loads and stores ends in the slab of the sequential loop. |
| `ParallelLayer.ParallelIsSequential` | src/engine/mod.rs:169-230 | If the layout is also free of races, every worker has loaded that slab's byte at each element attention reads. |
| `ParallelLayer.SomeScheduleCompletes` | src/engine/mod.rs:169-230 | There is a complete interleaving: one worker after another. |
| `ParallelLayer.LayersAreSequential` | src/engine/mod.rs:150-264 | So all layers, each run in parallel in any way, leave the slab that the sequential step leaves, whatever the head count. |
| `Races.TwoOutcomes` | src/engine/mod.rs:215-230 | If the layout is not free of races there is a batch of two sequences, and two complete interleavings of its layer, of which one loads what was in the slab before and the other what the other sequence stores. |
| `Races.DeterministicIffRaceFree` | src/engine/mod.rs:169-230 | What the workers of a layer load is the same under every interleaving, for every batch and every computation, exactly when the layout is free of races. |
| `Races.IndependentIffRaceFree` | src/engine/mod.rs:169-230 | The workers of every batch are independent exactly when the layout is free of races. |
| `AttentionMemory.AllReadable` | src/engine/mod.rs:218-230 | Positions 0 to `num_tokens`, all that attention is asked for, are on mapped pages and inside the slab, for head counts whose two sections fit in a page. |
| `AttentionMemory.AttentionSeesLog` | src/attention/flash_cpu.rs:51-102 | At every position a sequence has written since its admission, attention's keys and values are exactly the codes written (same head count, even width). |
| `AttentionMemory.ScoreSeesLog` | src/attention/flash_cpu.rs:47-105 | There, the score is the scale times the sum of query times K code written, over the head's dimensions, and the value row is the V codes written. |
| `AttentionMemory.WriteElsewhereUnseen` | src/engine/mod.rs:184-230 | A write by another sequence changes nothing a sequence reads, at written and unwritten positions alike. |
| `AttentionMemory.AttentionUndisturbed` | src/engine/mod.rs:184-230 | So it changes neither the scores nor the values of another sequence's attention. |
| `Softmax.RescaleSum` | src/attention/flash_cpu.rs:76-82 | Multiplying the running sum by `exp(m_old - m_new)` gives the sum relative to the new maximum. |
| `Softmax.RescaleRows` | src/attention/flash_cpu.rs:76-80 | The same for the accumulator. |
| `Softmax.SumBounds` | src/attention/flash_cpu.rs:85-106 | Relative to the maximum the weights sum to between one and the number of scores. |
| `Softmax.Normalised` | src/attention/flash_cpu.rs:110-114 | Dividing accumulator by sum gives dense softmax, whatever maximum both are relative to. |
| `Softmax.DenseBetween` | src/attention/flash_cpu.rs:110-115 | Attention averages: each output lies between the bounds of the values. |
| `FlashAttention.MaxScore` | src/attention/flash_cpu.rs:73-73 | The fold from minus infinity is the largest score of the tile. |
| `FlashAttention.NewMax` | src/attention/flash_cpu.rs:73-82 | The larger of running maximum and tile maximum is the maximum of all positions so far. |
| `FlashAttention.ScoreMeans` | src/attention/flash_cpu.rs:47-70 | A score is the scale times the sum over the head's dimensions of `q[d]` times the byte at page `block_table[p / 16]`, slot `p % 16`, head and `d`. |
| `FlashAttention.ScoreTile` | src/attention/flash_cpu.rs:47-70 | For each position of the tile its score (`FlashAttention.ScoreMeans`), read through the block table. |
| `FlashAttention.AccumulateTile` | src/attention/flash_cpu.rs:84-105 | The tile's values are added with their weights, and its weights are summed. |
| `FlashAttention.Tile` | src/attention/flash_cpu.rs:43-108 | A tile leaves maximum, sum and accumulator as those of all positions so far, with the sum between one and their number, and the accumulator divided by the sum between any bounds of the values read so far. |
| `FlashAttention.DenseMeans` | src/attention/flash_cpu.rs:23-116 | Dense attention from the bytes: component `d` times the sum of the weights is the sum of weight times value byte, 16 vectors after the keys, the weights being the exponentials of the scores. |
| `FlashAttention.FlashAttnPaged` | src/attention/flash_cpu.rs:23-116 | For every number of positions and every tile size, the code's 64 included, the result is dense softmax attention over the bytes of the cache (`FlashAttention.DenseMeans`), so it does not depend on the tiling, and each component lies between any bounds of the values. |
| `Quantiser.AbsmaxScale` | src/engine/mod.rs:435-454 | The eight-lane loop and its tail compute the scalar maximum magnitude, floored, for vectors of any length. |
| `Quantiser.F32ToI8Absmax` | src/engine/mod.rs:392-432 | Eight at a time and then one by one, every value is given the scalar code for the common scale, in [-127, 127]. |
| `Quantiser.QuantisedMeans` | src/engine/mod.rs:392-432 | The scale is the largest magnitude, or 1e-9 if that is less, and each code is 127 times its value over the scale with the fraction dropped, stated by bounds on the code. |
| `Quantiser.CodeUnique` | src/engine/mod.rs:411-428 | Those bounds leave one code for each value and scale. |
| `Quantiser.ScaleUnique` | src/engine/mod.rs:435-454 | And one scale for each vector. |
| `Quantiser.QuantisedMonotone` | src/engine/mod.rs:411-428 | Larger values are never given smaller codes. |
| `Quantiser.QuantisedError` | src/engine/mod.rs:396-431 | Every value is within one step, `absmax / 127`, of its decoded code. |
| `Quantiser.ExtremeUsesFullRange` | src/engine/mod.rs:396-431 | The largest magnitude is given the code 127 or -127. |
| `WeightLoader.MarkInPlace` | src/gguf/weight_loader.rs:146-150 | A positive weight sets its bit in the positive mask, a negative one in the negative mask, zero neither. |
| `WeightLoader.WeightSign` | src/gguf/weight_loader.rs:139-150 | The weight of element `e` is positive when delta and quant `e % 32` of block `e / 32` have the same sign, and negative when they have opposite ones. |
| `WeightLoader.PackElement` | src/gguf/weight_loader.rs:130-151 | Packing an element sets its bit in the mask of its sign (`WeightLoader.WeightSign`) and leaves the others. |
| `WeightLoader.PackBlock` | src/gguf/weight_loader.rs:124-152 | A block packs its elements, across row boundaries and up to the end of the tensor. |
| `WeightLoader.Q8BlocksToTernaryBitmasks` | src/gguf/weight_loader.rs:100-163 | For every row and column, bit `row * cols + col` is set in the positive mask exactly when delta and quant of element `row * cols_raw + col` have the same sign, in the negative mask exactly when they have opposite ones, and in neither for padding; `cols` is rounded up to 64, and there is one scale for each block, in order. |
| `WeightLoader.MaskMeaning` | src/gguf/weight_loader.rs:136-150 | For every row and column, from the block's delta and quant: the positive bit is set exactly for one sign, the negative bit exactly for two, never both, and none in the padding. |
| `WeightLoader.CompiledMeans` | src/gguf/weight_loader.rs:100-163 | So a compiled tensor is determined by the deltas and quants of its blocks. |
| `TernaryKernel.HalfDiff` | src/simd/avx512_bw.rs:36-54 | Select, split, widen and subtract give exact differences: no 16-bit step overflows. |
| `TernaryKernel.AccumulateBlock` | src/simd/avx512_bw.rs:27-64 | A block adds its pair sums to both accumulators, lane by lane, modulo 2^32. |
| `TernaryKernel.LanesMakeDot` | src/simd/avx512_bw.rs:56-68 | Without wrap-around the thirty-two lanes add up to the scalar dot product. |
| `TernaryKernel.TernaryDot` | src/simd/avx512_bw.rs:7-69 | For all masks and activations the kernel returns, as a 32-bit integer, the sum of the activations at set positive bits less those at set negative bits. |
| `TernaryKernel.DotMeans` | src/simd/avx512_bw.rs:7-69 | The dot product is the sum of the activations at set positive bits less those at set negative bits, and its wrapped form the 32-bit integer that differs from it by a multiple of 2^32. |
| `TernaryKernel.NoStepOverflows` | src/simd/avx512_bw.rs:56-68 | Below 2^24 weights no 32-bit step overflows: no lane, no sum of lanes, no partial sum of the reduction. |
| `TernaryKernel.NoOverflow` | src/simd/avx512_bw.rs:7-69 | So the result is the dot product itself. |
| `TernaryKernel.OverflowFromBound` | src/simd/avx512_bw.rs:7-69 | From 2^24 weights on, for every size, there are masks and activations for which it is not. |
| `TernaryKernel.ExactIffBelowBound` | src/simd/avx512_bw.rs:7-69 | The wrapped sum that the kernel returns is the dot product itself, for all masks and activations, exactly when there are fewer than 2^24 weights. |
| `TernaryKernel.ScalarDot` | src/bin/validate_weights.rs:57-69 | The reference loop computes the same dot product one weight at a time. |
| `TernaryKernel.PaddingAddsNothing` | src/bin/validate_weights.rs:54-80 | Weights of zero add nothing, whatever activations stand beside them. |
| `Projection.TernaryProjI8` | src/engine/mod.rs:353-373 | Each output is the row's own words of both masks against the activations, as a 32-bit integer, times the scale of block `row * cols_raw / 32`, or 1 when there is none. |
| `Projection.RowOutputMeans` | src/engine/mod.rs:363-370 | The same of the specified output, from mask bits and scales alone. |
| `Projection.RowWeight` | src/gguf/weight_loader.rs:136-150 | The weight the kernel uses for a column is the sign of the dequantised weight, and zero in the padding. |
| `Projection.PaddedIsScalar` | src/bin/validate_weights.rs:51-80 | On a compiled tensor the kernel over `cols` agrees with the reference over `cols_raw`, whatever follows the activations. |
| `Projection.KernelIsSignDot` | src/engine/mod.rs:365-367 | The kernel computes the sum of sign times activation over the real columns of its row, even when blocks straddle rows. |
| `TernaryRows.SignOutputMeans` | src/engine/mod.rs:353-373 | A compiled row's output, from the blocks alone: the sum of the activations, each negated where delta and quant have two signs and dropped where either is zero, as a 32-bit integer, times the delta of the block in which the row starts. |
| `TernaryRows.TrueDotMeans` | src/gguf/weight_loader.rs:136-142 | What exactness compares with is the sum of delta times quant times activation over the real columns. |
| `Projection.ExactIffOneScale` | src/engine/mod.rs:365-370 | For any number of columns: a row's output is its dequantised weights times the activations, for all activations, exactly when every weight of the row is zero or as large as the scale of the block in which the row starts, and the largest and the smallest sum its signs can reach fit in 32 bits. |
| `Projection.TernaryRowsExact` | src/engine/mod.rs:353-373 | With quants in {-1, 0, 1} and one non-negative delta for the blocks a row touches, the row is exact exactly when those two sums fit in 32 bits. |
| `TernaryRows.TernaryRowOutput` | src/engine/mod.rs:353-373 | With such rows the output is delta times the sum of quant times activation exactly when that sum is a 32-bit integer or delta is 0, and so for every row whose sums fit. |
| `Projection.FewColumnsFit` | src/engine/mod.rs:353-373 | The sums of a row of fewer than 2^24 columns always fit. |
| `ByteMask.AddByte` | src/lib.rs:76-84 | Eight weights of one byte are added to the positive and negative sums. |
| `ByteMask.RowSum` | src/lib.rs:66-88 | Positive sum minus negative sum is the dot product with the bytes' weights, as a 32-bit integer. |
| `ByteMask.FastSimdInference` | src/lib.rs:53-93 | Each output is the sum over the bits of bytes `r * (cols / 8)` on of both masks, as a 32-bit integer, times the scale. |
| `ByteMask.RowValueMeans` | src/lib.rs:53-93 | The same of the specified row value, from mask bytes and scale alone. |
| `ByteMask.ReadIffWholeBytes` | src/lib.rs:39-63 | The bytes the kernel reads for a row are those allotted to it, for all masks and activations, exactly when the columns fill whole bytes. |
| `ByteMask.SameWeights` | src/lib.rs:69-84 | Regrouped little end first, words and bytes stand for the same weights. |
| `ByteMask.TensorsAgree` | src/lib.rs:60-84 | On a tensor given in either format, with columns a multiple of 64, both kernels use the same weights for every row. |
| `ByteMask.BothKernels` | src/lib.rs:53-93 | So the byte-mask kernel and the word-mask kernel return the same integer for every row's masks and all activations. |
| `Rope.ApplyRope` | src/engine/mod.rs:501-518 | The nested loops on the copy turn coordinates `j` and `h + j` of every head by position times frequency, each head on its own, and leave what is beyond the heads. |
| `Rope.HalfToAt` | src/engine/mod.rs:506-515 | Where each coordinate of a rotated head comes from. |
| `Rope.HalfSplitMeans` | src/engine/mod.rs:506-515 | Coordinate `j` of a rotated head is `x[j] cos(pos f(j)) - x[h + j] sin(pos f(j))`, coordinate `h + j` is `x[j] sin(pos f(j)) + x[h + j] cos(pos f(j))`, and the last of an odd number stays. |
| `Rope.ApplyRopeInPlace` | src/architecture.rs:67-87 | The in-place loop turns coordinates `2j` and `2j + 1` of query and key by position times frequency; with an odd dimension it reaches one past it. |
| `Rope.InterleavedAt` | src/architecture.rs:74-85 | Where each coordinate of the in-place version comes from. |
| `Rope.InterleavedMeans` | src/architecture.rs:74-85 | Coordinates `2j` and `2j + 1` after the in-place version, in the same form, and the rest as before. |
| `Rope.RelativePositions` | src/engine/mod.rs:501-518 | The dot product of a query rotated at `m` and a key rotated at `n` depends on `m - n` only, for every dimension and every choice of frequencies. |
| `RopeDots.HalfDotMeans` | src/engine/mod.rs:501-518 | A query at `m` against a key at `n`: the sum of products is the sum over pairs of `(q0 k0 + q1 k1) cos(a) + (q0 k1 - q1 k0) sin(a)` with `a` the difference `m - n` times the pair's frequency, and the last coordinate of an odd number. |
| `Rope.Isometry` | src/engine/mod.rs:501-518 | At one position rotation preserves dot products, and so norms. |
| `Rope.Conjugate` | src/architecture.rs:67-87 | For every even dimension the in-place version and the engine's are conjugate by the permutation of coordinates. |
| `Rope.InterleavedRelative` | src/architecture.rs:67-87 | So the in-place version is relative too. |
| `RopeDots.NeighbourDotMeans` | src/architecture.rs:67-87 | The same for the in-place version, with neighbouring coordinates as pairs. |
| `RingCache.KvCache.constructor` | src/architecture.rs:142-150 | An empty cache of the given window. |
| `RingCache.KvCache.Update` | src/architecture.rs:154-163 | Writes key and value from `(current % max_seq_len) * head_dim` on and nothing else; of the history so extended the buffers hold the last `max_seq_len`, each token in its own slot. |
| `RingCache.SlotsDiffer` | src/architecture.rs:156-157 | Tokens less than a window apart have different slots. |
| `Encoding.Reader.ReadExact` | src/gguf/parser.rs:163-179 | Reads that many bytes, or fails at the end of the data. |
| `Encoding.Reader.ReadNum` | src/gguf/parser.rs:164-173 | Little-endian numbers of any width. |
| `Encoding.Reader.ReadGgufString` | src/gguf/parser.rs:174-179 | A length and as many bytes. |
| `Encoding.NumRoundTrip` | src/gguf/parser.rs:164-173 | Reading an encoded number gives the number and leaves what follows. |
| `Encoding.StringRoundTrip` | src/gguf/parser.rs:174-179 | The same for strings. |
| `Metadata.ReadMetadataValue` | src/gguf/parser.rs:180-228 | The reader, recursion and loops included, computes the specified parse: same value, same bytes left, same error. |
| `Metadata.ReadArray` | src/gguf/parser.rs:209-217 | The item loop reads as many values of the named type as the length says; it terminates because every item consumes bytes. |
| `GgufBytes.ValueBytes` | src/gguf/parser.rs:180-228 | For every type code, what is read and kept: one, two, four or eight bytes, of which a bool is kept as being non-zero, 4 and 10 as little-endian numbers, 5 in two's complement, 6 as bits; a string or an array after its length; and an error for any code above 12. |
| `Metadata.ValueRoundTrip` | src/gguf/parser.rs:180-228 | For every value of the format, nested arrays included, reading its encoding consumes exactly its bytes and gives what the engine keeps of it, whatever follows. |
| `Metadata.ValueCanonical` | src/gguf/parser.rs:180-228 | The converse: whatever is read successfully is the encoding of a value with this view. |
| `Gguf.ReadEntries` | src/gguf/parser.rs:76-83 | The entry loop reads the entries in order and inserts them one after another. |
| `Gguf.LastPairWins` | src/gguf/parser.rs:76-83 | A key has the value of the last entry with it, and is absent without one. |
| `GgufBytes.EntryMeans` | src/gguf/parser.rs:77-82 | An entry is eight bytes of length, the key, four bytes of type code, and the value. |
| `Gguf.ReadTensor` | src/gguf/parser.rs:93-108 | Name, dimensions, type and offset of one tensor. |
| `Gguf.ReadTensors` | src/gguf/parser.rs:91-109 | The tensor loop reads as many as were announced. |
| `GgufBytes.TensorMeans` | src/gguf/parser.rs:92-108 | A tensor info is eight bytes of length, the name, four bytes of dimension count, eight for each dimension, four of type and eight of offset, and its fields are those numbers. |
| `Gguf.Open` | src/gguf/parser.rs:62-123 | Magic check, counts, entries, tensors, alignment and data start, with the first error met. |
| `GgufBytes.OpenBytes` | src/gguf/parser.rs:66-74 | A file that opens begins with the bytes 71, 71, 85, 70 ("GGUF"), and version and tensor count are the numbers at 4 and 8; one that begins otherwise is refused with what it begins with. |
| `Gguf.OpenRoundTrip` | src/gguf/parser.rs:62-123 | Opening an encoded file head gives its version, metadata, tensors and data start, whatever follows. |
| `GgufBytes.OpenFields` | src/gguf/parser.rs:115-122 | Field by field: its version, its tensors and their number, for each key what is kept of the last value with it, and no other keys. |
| `GgufCanonical.OpenCanonical` | src/gguf/parser.rs:62-123 | The converse: a file that opens begins with a well-formed head, and the header is that head's. |
| `GgufBytes.AlignmentMeans` | src/gguf/parser.rs:85-89 | The alignment is that of the last entry spelled "general.alignment" if it is an unsigned 32-bit number, and 32 if it is not or there is none. |
| `GgufBytes.DefaultDataStart` | src/gguf/parser.rs:111-113 | Without such an entry `data_start` is the length of the head rounded up to a multiple of 32. |
| `Alignment.AlignsIffPowerOfTwo` | src/gguf/parser.rs:111-113 | The mask computes the least aligned offset at or after every offset exactly when the alignment is a power of two. |
| `DataStarts.DataStartAligned` | src/gguf/parser.rs:85-113 | `data_start` is the least aligned offset after the head, for every well-formed file whose metadata give an alignment, exactly when that alignment is a power of two; for any other a file with a tensor name of the right length is a counterexample. |

## Left out

- FlashAttnPaged: over the reals; rounding and overflow of `f32` are not modelled, nor a call with no positions, which
  divides by zero and which the engine does not make.
- AbsmaxScale: over the reals; not-a-number is not modelled, and the early return for a maximum below 1e-9
  (src/engine/mod.rs:397-399), which the floor makes unreachable, is left out.
- ArgmaxF32: over the reals, so that repeated penalties do not round; the `unwrap` of a comparison with not-a-number
  is not modelled.
- ApplyRope: the frequencies are an arbitrary function of the pair, not the powers of 10000.
- Q8BlocksToTernaryBitmasks: takes the blocks with their scales decoded, as finite reals; `f16_to_f32` itself is not
  modelled, nor the panic for a buffer of the wrong size.
- TernaryDot: the kernel's loads past `cols_raw` are values of an arbitrary longer sequence; the order in which
  `reduce_add` combines lanes is taken to be from first to last, which does not matter modulo 2^32. The scalar
  fallback (src/simd/dispatch.rs:67-74), which returns 0, and feature detection are not modelled.
- ReadGgufString: strings are their bytes; the lossy conversion to UTF-8 is not modelled.
- ReadMetadataValue: an announced length so large that allocation fails is not modelled; floats are their bits.
- AllocPage: memory ordering is not modelled; the concurrent model is sequentially consistent, with failures of
  the swap for no reason.
- StepForward: embedding, norms, the feed-forward network and the language-model head are inside the oracle, so
  what attention computes does not flow back into the K and V of later layers.
- RetiredIffServable: takes the requests that arrive later to be servable; one that is not can run, fill the pool, and
  be preempted to the front of the queue, where it blocks requests submitted before it.
- ParallelSlab: takes what the workers load to lie in the slab; with head counts whose sections do not fit, loads on the
  last page leave the allocation, and what they then find is not modelled.
- Running out of memory, panics of assertions, and drop of raw buffers.
- File access, memory mapping, seeking, and reading tensor data (`read_tensor_into`, `tensor_byte_size`): plumbing, and
  sizes that the reader reports in elements for one type.
- `src/gguf_parser.rs`: not a module of the crate.
- The tokenizer, which is dominated by an external library.
- The unused `SequenceState` and `KVPage` of `src/kv_cache/page_pool.rs`, the simulated engine of
  `src/architecture.rs`, batch stubs, demos, benchmarks and scripts.
- The mesh (`mesh/src/main.rs`) and the foreign-function layer (`src/ffi.rs`): plumbing with no behaviour behind it.
