# MemX model

A Dafny model of the MemX repository: the adaptive address index, the thread-caching heap built
on it, the allocation-trace tools that exercise it, and the radix baselines it is measured
against. Each component keeps a clever structure that must agree with a simple one; the project
proves that it does, over every history, every interleaving and every pattern of failed
allocations.

`dafny verify dfyconfig.toml` checks the whole project.

## Structure

- **Words.** `Bits` has shifts, masks and powers of two over naturals. The word width is a
  parameter of every component (`wordLog`); wrap-around and overflow checks are written out.
- **Address index.** `IndexSpec` is the specification: one map from granules to handles, and the
  geometry of byte ranges. `RegionShapes`, `Descriptors`, `DirectoryStore`, `RangeSteps`,
  `OverlayPages` and `OverlayMapping` hold the reasoning about regions, tagged words, the directory
  with its ledger of live allocations, runs cut at region boundaries, pages and guard pages.
  `AdaptiveIndex` is the index as a class whose methods follow the C functions over an allocator
  that may refuse any request. `IndexHistories` has the theorems over whole histories,
  `IndexReports` the statistics, `IndexViews` the inline accessors.
- **Heap.** `SizeClasses`, `CacheSegments` (budget rule), `HeapLists` (the lists as they lie in
  memory: links, heads, tails, counts, metadata inside head blocks), `HeapPools`, `HeapMemory`,
  `HeapMoves`, `HeapSteps`, `HeapFrame`, `HeapSafety`, `HeapRuns` (the concurrent heap as a
  transition system, one step per critical section or atomic access, its invariant, and what holds
  after any run), `HeapViews`, `HeapLayout` and `HeapProgram` (the lists in memory carry out every
  step of that system, for all caches and classes at once), `SpanLayout` and `Arena` (span claim and
  pointer resolution over the address index), `HeapArenaRuns` (runs of heap and arena together),
  `LargeIndex` (the resizing hash of large allocations, chained through its nodes).
- **Traces.** `TraceModel` is the specification of lifecycle-valid traces; `LifecycleTable`,
  `TraceValidation` and `TraceStats` are the validator and the statistics; `Numerals` and
  `TraceText` the text format with numbers as in section 7.22.1.4 of ISO/IEC 9899:2018;
  `FreeRanges` and `Generator` the generator; `Replay` the replayer; `Pipeline` the composition.
- **Baselines.** `Radix`.

## Findings

- The handle guard of the generator (memx/tools/generate_trace.py:137-140) steps over the reserved
  handle only after handing it out. `Generator.ValidExactly` states exactly when the emitted list
  is valid, and `Generator.ExhaustHandles` is a run that reaches the reserved handle.
- The generator accepts arenas that end past 2^64 - 1, whose events the reader refuses;
  `Generator.PastLastWord` is such a run.
- A generated trace replays only if something was inserted and its regions have 2^16 to 2^47 bytes:
  outside that range the sparse index of the replayer cannot be created (`Pipeline.SparseCreatable`).
- `memx_region_boundary` answers the range end when the next boundary does not fit in a word, so
  the whole-region test of a removal also succeeds for a part of the last region. It stays sound
  because that region is never UNIFORM (`RangeSteps.LastRegionNotUniform`).
- The allocating branch inside the mutation loop of `memx_insert` is never reached: after the
  preparation the ledger gains no block (`ApplyInsert`).
- The branchless overlay read returns handle zero, not the invalid handle, on an EMPTY region
  (`IndexViews.TrustedViewAgrees` is an equivalence).
- `split_csv` ignores whatever follows a sixth comma, so an event line with extra fields is read;
  `TraceText.Fields` does the same.

## Model

| member | source | states |
|---|---|---|
| `IndexSpec.CoveredGranule` | memx/src/memx.c:531-559 | An address is covered exactly when its offset lies inside the whole granules of the index, and then region and granule numbers are quotient and remainder of its granule number. |
| `IndexSpec.RangeIsGranules` | memx/src/memx.c:964-986 | An accepted byte range is a non-empty run of granules inside the index whose first and end addresses are the range; over the full word the last granule is never reached. |
| `IndexSpec.PartGeometry` | memx/src/memx.c:620-634 | The byte arithmetic of the mutation loops is granule arithmetic: the piece ends at the next region or at the range end, and comparing its end with the region boundary succeeds exactly when the region is covered to its end or is the last region of the full word. |
| `IndexSpec.RemoveUndoesInsert` | memx/src/memx.c:1146-1274 | Removing what was inserted restores the map, and no other expected handle removes it. |
| `IndexSpec.LookupAfterInsert` | memx/src/memx.c:1052-1144 | After an insertion a lookup sees the new handle exactly inside the range and the old answer elsewhere. |
| `Descriptors.UniformRoundTrip` | memx/src/memx.c:365-389 | The UNIFORM word keeps a handle exactly when it is at most the inline maximum. |
| `Descriptors.DenseRoundTrip` | memx/src/memx.c:390-399 | A DENSE word keeps an aligned table pointer, and its tag says DENSE. |
| `RegionShapes.ReclassifyMeaning` | memx/src/memx.c:933-962 | Collapsing a table whose entries agree changes no granule. |
| `RegionShapes.CanonicalUnique` | memx/src/memx.c:933-962 | Two canonical shapes (no collapsible table, no unused leaf) with one map are the same region by region and leaf by leaf. |
| `DirectoryStore.InstallTransition` | memx/src/memx.c:562-591 | Publishing a fresh table under a descriptor keeps directory, ownership and ledger sound and changes one region. |
| `DirectoryStore.CollapseTransition` | memx/src/memx.c:933-962 | Dropping a collapsed table keeps the directory sound and leaves the ledger with exactly the reachable blocks. |
| `DirectoryStore.DescriptorType` | memx/src/memx.c:365-399 | The tag of a stored word, its inline handle and its table are those of the region it stands for. |
| `RangeSteps.LastRegionNotUniform` | memx/src/memx.c:620-634 | The last region of a full-word sparse index is never UNIFORM, which keeps the whole-region test of a removal sound. |
| `RangeSteps.InsertCanonical` | memx/src/memx.c:1095-1143 | Preparing and applying an insertion to a canonical index leaves it canonical. |
| `RangeSteps.RemoveCanonical` | memx/src/memx.c:1187-1273 | Preparing and applying a removal with pruning to a canonical index leaves it canonical. |
| `AdaptiveIndex.Allocator.Allocate` | memx/src/memx.c:88-105 | Every request is answered by null (counted as a failure) or by a fresh aligned word that joins the ledger. |
| `AdaptiveIndex.Allocator.Reserve` | memx/src/memx.c:167-234 | A reservation for the overlay is refused for overflow or by the system, or it joins the ledger of mappings and leaves an inaccessible page on each side of the aligned overlay. |
| `OverlayMapping.GuardsStand` | memx/src/memx.c:189-225 | Aligning the payload past the first byte of a page-aligned mapping leaves a page before it and a page after its rounded end, for ordinary and for huge pages. |
| `AdaptiveIndex.Create` | memx/src/memx.c:400-487 | Creation returns the status owed to the configuration, an empty canonical index on success beside whatever else the allocator serves, and gives every block of its own back on failure. |
| `AdaptiveIndex.MemxIndex.GetRegionMut` | memx/src/memx.c:562-591 | Finds the slot of a region; creating a missing leaf changes no region and fails only by a counted allocation failure. |
| `AdaptiveIndex.MemxIndex.PruneLeaf` | memx/src/memx.c:593-615 | Frees the leaf of a region exactly when all its descriptors are EMPTY; no region changes. |
| `AdaptiveIndex.MemxIndex.Densify` | memx/src/memx.c:916-931 | Turns a region into a table of equal entries, or fails with a counted allocation failure and no change. |
| `AdaptiveIndex.MemxIndex.Reclassify` | memx/src/memx.c:933-962 | Leaves the region in its reclassified form and frees the table it collapsed. |
| `AdaptiveIndex.MemxIndex.PreflightRange` | memx/src/memx.c:988-1010 | Succeeds exactly when every granule of the range has the expected content; otherwise names the right error. |
| `AdaptiveIndex.MemxIndex.PrepareInsert` | memx/src/memx.c:1012-1050 | Changes nothing a lookup can see; success means the mutation loop will need no allocation; failure is a counted allocation failure. |
| `AdaptiveIndex.MemxIndex.ApplyInsert` | memx/src/memx.c:1095-1143 | The mutation loop of an insertion writes the handle to exactly the run; the ledger gains no block and no allocation fails. |
| `AdaptiveIndex.MemxIndex.PrepareRemove` | memx/src/memx.c:1187-1212 | As PrepareInsert, for removals: UNIFORM regions cut by the range become tables of equal entries. |
| `AdaptiveIndex.MemxIndex.ApplyRemove` | memx/src/memx.c:1213-1273 | The mutation loop of a removal clears exactly the run, never fails, and prunes leaves it empties. |
| `AdaptiveIndex.MemxIndex.RewriteFlat` | memx/src/memx.c:1076-1093 | On a FLAT index the range is checked whole before any entry is written. |
| `AdaptiveIndex.MemxIndex.Insert` | memx/src/memx.c:1052-1144 | Status and new map are those of the plain map, in every storage form; a lack of memory changes no lookup and is reported only for a change the map accepts; without failed allocations the canonical form is kept. |
| `AdaptiveIndex.MemxIndex.Remove` | memx/src/memx.c:1146-1274 | As Insert, for removal with an expected handle. |
| `AdaptiveIndex.MemxIndex.LookupAddress` | memx/src/memx.c:667-699 | A lookup in the bounded, sparse, FLAT or OVERLAY form answers as the map. |
| `AdaptiveIndex.MemxIndex.Optimize` | memx/src/memx.c:758-813 | Conversion to FLAT keeps the map; it is refused exactly as documented and then leaves ledger and form alone. |
| `AdaptiveIndex.MemxIndex.OptimizeOverlay` | memx/src/memx.c:815-914 | Freezing keeps the map and every region, is refused only for form, size or a refused mapping, accounts its private bytes by pages, and holds one guarded mapping in the ledger. |
| `AdaptiveIndex.MemxIndex.CopyOverlay` | memx/src/memx.c:862-895 | The copied overlay holds every DENSE entry at its granule, and the running page account is that of the DENSE regions. |
| `AdaptiveIndex.MemxIndex.Destroy` | memx/src/memx.c:489-529 | Destroying any valid index frees every block and unmaps every mapping of its own once: both ledgers are as before its creation. |
| `AdaptiveIndex.MemxIndex.TypeAt` | memx/src/memx.c:1380-1405 | The reported type exists exactly for covered addresses; it is DENSE on a FLAT index and the type of the region in the adaptive and frozen forms. |
| `OverlayPages.PrivateBytesArePages` | memx/src/memx.c:873-894 | The byte total of the overlay loop is the page size times the number of distinct pages touched by DENSE regions, for every layout and page size. |
| `IndexHistories.Apply` | memx/src/memx.c:1052-1274 | One operation is explained by the map, except for a counted lack of memory. |
| `IndexHistories.Replay` | memx/src/memx.c:1052-1274 | Every history of inserts, removes and lookups is explained by the map step by step, and equals the map run when no allocation failed. |
| `IndexHistories.SameMapSameShape` | memx/src/memx.c:1276-1405 | Two canonical indexes of one configuration with one map have the same regions, leaves, counters, statistics and types. |
| `IndexHistories.ReplayBoth` | memx/src/memx.c:1052-1405 | Two histories replayed from fresh indexes without a failed allocation leave indistinguishable indexes whenever the plain map ends the same after both. |
| `IndexReports.CountsExact` | memx/src/memx.c:1276-1340 | The counters are the numbers of DENSE and UNIFORM regions and of leaves in use; the EMPTY count is that of all EMPTY regions of a bounded index, and of those with a slot in some leaf of a sparse one. |
| `IndexReports.TotalsExact` | memx/src/memx.c:1276-1378 | The saturating sums over object, directory, leaves and tables are the exact byte and page totals capped at the largest word. |
| `IndexReports.FlatTotals` | memx/src/memx.c:1307-1319 | The FLAT totals are the exact ones of the object and its one table, capped. |
| `IndexReports.OverlayTotals` | memx/src/memx.c:1341-1378 | The totals of a frozen index count the touched pages of its overlay, and the whole reservation is reported apart. |
| `IndexViews.BoundedViewAgrees` | memx/include/memx/memx.h:239-264 | The bounded view equals the checked lookup on every covered address. |
| `IndexViews.FlatViewAgrees` | memx/include/memx/memx.h:266-273 | The flat view equals the checked lookup on every covered address. |
| `IndexViews.TrustedViewAgrees` | memx/include/memx/memx.h:275-293 | The branchless overlay read equals the checked lookup exactly when the region is not EMPTY, and yields zero otherwise. |
| `LifecycleTable.ProbeCovers` | memx/bench/trace.c:429-454 | One lap of linear probing visits every slot. |
| `LifecycleTable.SlotFilled` | memx/bench/trace.c:504-532 | Filling the slot a probe ended at adds exactly one key and keeps every probe path free of EMPTY slots. |
| `LifecycleTable.SlotEntombed` | memx/bench/trace.c:551-569 | A tombstone removes exactly one key and hides no other. |
| `LifecycleTable.Table.Find` | memx/bench/trace.c:429-454 | Finds the slot of a key, or the slot an insertion must use, whatever the hash. |
| `LifecycleTable.Table.RangeMatches` | memx/bench/trace.c:484-502 | Succeeds exactly when every granule of the event is live with its handle (and active when asked). |
| `LifecycleTable.Table.InsertRange` | memx/bench/trace.c:504-532 | Accepts exactly free ranges, and then the table maps exactly the new granules in addition. |
| `LifecycleTable.Table.RetireRange` | memx/bench/trace.c:533-549 | Marks exactly the granules of the event retired. |
| `LifecycleTable.Table.RemoveRange` | memx/bench/trace.c:551-569 | Removes exactly the granules of the event. |
| `LifecycleTable.Table.LookupMatches` | memx/bench/trace.c:571-581 | Accepts exactly the handle the map gives for the granule of the address. |
| `TraceValidation.Validate` | memx/bench/trace.c:363-409 | Accepts exactly well-shaped traces and otherwise names the first bad event. |
| `TraceValidation.Capacity` | memx/bench/trace.c:456-482 | The capacity leaves half the table EMPTY whatever the trace inserts; refused exactly beyond the granule cap. |
| `TraceValidation.ApplyEvent` | memx/bench/trace.c:611-643 | The table accepts an event exactly when the map does, and then holds the map after it. |
| `TraceValidation.ValidateLifecycle` | memx/bench/trace.c:583-653 | Accepts exactly the lifecycle-valid traces within the cap; otherwise reports the first ill-shaped event or, failing that, the first event the map rejects. |
| `TraceModel.RejectionIsLocated` | memx/bench/trace.c:583-653 | A rejected event list has exactly one first rejected event. |
| `TraceStats.CalculateStats` | memx/bench/trace.c:655-735 | Counts, peak and final live bytes, threads and address bounds are those of the trace. |
| `TraceStats.GridFits` | memx/bench/trace.c:679-700 | The bytes of all live granules fit in a word, so the live counter cannot wrap. |
| `Numerals.DecReads` | memx/bench/trace.c:54-65 | A printed decimal number reads back as itself under base detection. |
| `Numerals.HexReads` | memx/bench/trace.c:54-65 | A printed hexadecimal word reads back as itself. |
| `TraceText.SplitCsv` | memx/bench/trace.c:160-179 | The splitting loop yields the trimmed fields in order, at most the requested number. |
| `TraceText.EventReads` | memx/bench/trace.c:210-228 | Parsing a printed event line yields the event. |
| `TraceText.HeaderReads` | memx/bench/trace.c:181-208 | A printed header line sets its field and no other. |
| `TraceText.RoundTrip` | memx/bench/trace.c:325-361 | Scanning the text of a printable trace yields the same version, shifts and events, with magic and columns seen. |
| `TraceText.Read` | memx/bench/trace.c:230-323 | The reader returns the scan of the text, a trace exactly when it is of version 1 and lifecycle-valid within the cap, and otherwise the status of the failure with its line: of the text while scanning, of the first bad or rejected event afterwards. |
| `TraceText.Write` | memx/bench/trace.c:325-361 | Exactly the lifecycle-valid traces within the cap are written, as their text. |
| `TraceText.WriteThenRead` | memx/bench/trace.c:230-361 | What is written reads back unchanged. |
| `FreeRanges.PlaceSorted` | memx/tools/generate_trace.py:114-116 | A range clear of a sorted free list finds its place in order. |
| `FreeRanges.Merge` | memx/tools/generate_trace.py:117-124 | Merging leaves sorted ranges no two of which touch, covering the same addresses. |
| `FreeRanges.TakenCovers` | memx/tools/generate_trace.py:95-112 | Taking from either end of a range removes exactly the taken addresses. |
| `FreeRanges.SoleRange` | memx/tools/generate_trace.py:204-228 | A gapped list covering exactly an interval is that one range. |
| `Generator.TraceGenerator.constructor` | memx/tools/generate_trace.py:48-70 | A new generator over any arena of whole regions starts with one free range and an empty log. |
| `Generator.TraceGenerator.AllocateRange` | memx/tools/generate_trace.py:88-112 | Allocates from any large enough range at either end, and fails only when none is. |
| `Generator.TraceGenerator.FreeRange` | memx/tools/generate_trace.py:114-124 | The free list gains exactly the range and stays sorted and apart. |
| `Generator.TraceGenerator.Insert` | memx/tools/generate_trace.py:126-143 | Keeps the partition of the arena and the truth of the log; adds at most one INSERT. |
| `Generator.TraceGenerator.RetireAt` | memx/tools/generate_trace.py:158-170 | Retires exactly one allocation and records an event the live map accepts. |
| `Generator.TraceGenerator.RemoveAt` | memx/tools/generate_trace.py:176-189 | Forgets exactly one allocation, records it, and merges its range back. |
| `Generator.TraceGenerator.Finish` | memx/tools/generate_trace.py:204-228 | Ends with no allocation and one free range over the whole arena. |
| `Generator.TraceGenerator.Generate` | memx/tools/generate_trace.py:263-275 | The emitted trace is lifecycle-valid exactly when it holds fewer insertions than there are handles below the reserved one and none ends past the last word; every address lies in the arena, and counts and sizes are bounded by the steps. |
| `Generator.ValidExactly` | memx/tools/generate_trace.py:137-140 | The handle guard acts one call late: validity holds exactly while the handle counter is at most the largest word and every insertion ends within a word. |
| `Generator.ExhaustHandles` | memx/tools/generate_trace.py:126-189 | A run of insertions, retirements and removals over one granule that hands out the reserved handle and leaves a trace that is not lifecycle-valid. |
| `Generator.PastLastWord` | memx/tools/generate_trace.py:48-143 | A run in an arena past the last word whose only insertion makes the trace invalid. |
| `Generator.AllocatePartition` | memx/tools/generate_trace.py:88-143 | After an allocation every arena address is still in exactly one free range or allocation. |
| `Generator.ReleasePartition` | memx/tools/generate_trace.py:114-189 | After a release every arena address is still in exactly one free range or allocation. |
| `Replay.CoverageFacts` | memx/bench/memx_trace_replay.c:36-59 | The coverage is region-aligned, non-empty and contains the address bounds of the trace. |
| `Replay.CoverageSmallest` | memx/bench/memx_trace_replay.c:36-59 | Every run of whole regions around the addresses of a trace contains the coverage. |
| `Replay.CoverageExists` | memx/bench/memx_trace_replay.c:36-59 | A coverage exists exactly when some event names an address and rounding the last one up stays in a word. |
| `Replay.RangeAgrees` | memx/bench/memx_trace_replay.c:85-113 | An event range inside the index is the run of granules the index sees. |
| `Replay.ReplayInto` | memx/bench/memx_trace_replay.c:85-141 | Without failed allocations a lifecycle-valid trace meets no lookup or mutation failure exactly when every INSERT lies inside the index. |
| `Replay.ReplayOnce` | memx/bench/memx_trace_replay.c:61-141 | As ReplayInto for an index created and destroyed around the run; nothing stays allocated. |
| `Replay.ReplayTrace` | memx/bench/memx_trace_replay.c:154-201 | A lifecycle-valid trace with a coverage replays cleanly into the bounded index; the run succeeds exactly when the sparse index covers every INSERT too. |
| `Pipeline.SparseCreatable` | memx/bench/memx_trace_replay.c:61-86 | The 48-bit sparse index of the replayer can be created exactly for regions of 2^16 to 2^47 bytes, when memory is granted. |
| `Pipeline.Replayable` | memx/bench/memx_trace_replay.c:144-201 | For a generated trace the coverage exists exactly when something was inserted, and both indexes can be built exactly for regions of 2^16 to 2^47 bytes. |
| `Pipeline.GenerateAndReplay` | memx/tools/generate_trace.py:263-281 | A short generated run is valid and reads back as written; without a failed allocation it replays exactly when something was inserted into regions of a supported size, cleanly into the bounded index, and with success exactly when every insertion ends within 48 bits. |
| `SizeClasses.ClassForSize` | memx/src/allocator/heap.c:219-249 | The index is that of the least fitting class, lies past the table exactly for sizes above 8192, and wastes less than half of a request above 16. |
| `SizeClasses.LeastIsLeast` | memx/src/allocator/heap.c:219-249 | No smaller class fits. |
| `SizeClasses.TableIsClassSize` | memx/src/allocator/heap.c:159-170 | The table holds the classes 2^n and 1.5 * 2^n in order. |
| `CacheSegments.ReturnedAtRest` | memx/src/allocator/heap.c:489-532 | A freed block leaves local and spare segments within the budget, and what is flushed fits a central chunk. |
| `CacheSegments.ReturnedKeeps` | memx/src/allocator/heap.c:489-532 | Every block is still in the segments or the flushed chunk, once. |
| `HeapPools.SpliceKeeps` | memx/src/allocator/heap.c:300-640 | A move between lists loses, duplicates and invents no block and keeps classes apart. |
| `HeapMemory.ToCentralSound` | memx/src/allocator/heap.c:300-330 | Pushing a chunk moves exactly its blocks to the top of the stack of their class. |
| `HeapMemory.FromCentralSound` | memx/src/allocator/heap.c:580-592 | A refill takes exactly the top chunk. |
| `HeapMemory.AddChunkSound` | memx/src/allocator/heap.c:438-460 | A carved chunk adds exactly its fresh blocks. |
| `HeapMoves.ReturnEffect` | memx/src/allocator/heap.c:467-532 | One freed or drained block enters the hot segment; the trim follows the budget rule and loses nothing. |
| `HeapMoves.GiveSpareEffect` | memx/src/allocator/heap.c:489-511 | A flush gives the whole spare segment to the central bin: the case that drops it cannot arise. |
| `HeapMoves.TakeEffect` | memx/src/allocator/heap.c:617-633 | An allocation hands out the first hot block, of the requested class, and leaves the segments within the budget. |
| `HeapMoves.RecallEffect` | memx/src/allocator/heap.c:1078-1094 | Detaching empties every remote queue of the cache and loses nothing. |
| `HeapMoves.SurrenderEffect` | memx/src/allocator/heap.c:1096-1120 | Surrendering a class leaves both segments empty and every block in a central chunk. |
| `HeapMoves.CarveAllEffect` | memx/src/allocator/heap.c:408-462 | Carving a span of new blocks publishes all of them in chunks within the limit and gives them their class; nothing else changes. |
| `HeapSafety.EnterKeeps` | memx/src/allocator/heap.c:251-298 | Finding or creating a cache keeps the invariant. |
| `HeapSafety.RegisterKeeps` | memx/src/allocator/heap.c:283-288 | Publishing a cache keeps the invariant; the exclusive cache is the only one ever registered. |
| `HeapSafety.AllocateKeeps` | memx/src/allocator/heap.c:596-640 | Allocating from the cache, or taking the remote queue, keeps the invariant. |
| `HeapSafety.RefillKeeps` | memx/src/allocator/heap.c:574-593 | The critical section of a refill keeps the invariant. |
| `HeapSafety.ShortcutSound` | memx/src/allocator/heap.c:1251-1265 | Whenever the exclusive-cache shortcut is taken, the owner it assumes is the one the block records. |
| `HeapSafety.RouteKeeps` | memx/src/allocator/heap.c:1236-1275 | Routing a freed block home keeps the invariant. |
| `HeapSafety.DepositKeeps` | memx/src/allocator/heap.c:1276-1290 | A remote free into an accepting or a detached cache keeps the invariant. |
| `HeapSafety.UnlinkKeeps` | memx/src/allocator/heap.c:1055-1094 | Detaching keeps the invariant. |
| `HeapSafety.SurrenderKeeps` | memx/src/allocator/heap.c:1096-1120 | Every step of a detach keeps the invariant. |
| `HeapRuns.Next` | memx/src/allocator/heap.c:300-1294 | Every step of every thread keeps the invariant. |
| `HeapRuns.EveryBlockOnce` | memx/src/allocator/heap.c:300-1294 | After any interleaving each carved block is in exactly one place, of its own class. |
| `HeapRuns.CarvedForever` | memx/src/allocator/heap.c:300-1294 | No run loses a block or changes its class. |
| `HeapRuns.CarvedStep` | memx/src/allocator/heap.c:300-1294 | A step changes the set of blocks exactly when a refill carves a span, and then by exactly that span. |
| `HeapRuns.ExclusiveIsOwner` | memx/src/allocator/heap.c:1251-1265 | After any run, a free that takes the shortcut frees a block of the calling thread's own cache. |
| `HeapRuns.NothingStranded` | memx/src/allocator/heap.c:1055-1094 | After any run the remote queues of a detached cache are empty. |
| `HeapRuns.BudgetsHold` | memx/src/allocator/heap.c:489-532 | After any run attached caches respect the budget per class, and every central chunk is non-empty, starts with its head and respects the limits. |
| `HeapRuns.AllBackInCentral` | memx/src/allocator/heap.c:1055-1121 | When no block is live and every cache is detached, every carved block is in a central chunk of its class. |
| `HeapLists.BinPush` | memx/src/allocator/heap.c:300-321 | Chunk metadata written into the head block describes the pushed chunk and leaves the others described. |
| `HeapLists.BinPop` | memx/src/allocator/heap.c:580-589 | The metadata of the top chunk gives its blocks, tail, count and successor. |
| `HeapLists.BlockLists.PushCentralChunk` | memx/src/allocator/heap.c:300-321 | In memory, the bin gains exactly the given chain as its top chunk. |
| `HeapLists.BlockLists.FlushExcess` | memx/src/allocator/heap.c:489-518 | In memory, the spare goes to the bin whole and the hot segment becomes the spare. |
| `HeapLists.BlockLists.PushLocal` | memx/src/allocator/heap.c:1266-1275 | In memory, one block enters the hot segment and the budget is kept. |
| `HeapLists.BlockLists.DrainRemote` | memx/src/allocator/heap.c:467-487 | In memory, the queue is returned block by block in order, trimming as it goes. |
| `HeapLists.BlockLists.CarveSpan` | memx/src/allocator/heap.c:438-460 | In memory, the carving loop publishes the span in reversed chunks of the chunk limit. |
| `HeapLists.BlockLists.Refill` | memx/src/allocator/heap.c:551-594 | In memory, tries spare, remote queue and bin in order, keeps every block, and fails only with everything empty. |
| `HeapLists.BlockLists.AllocateSmall` | memx/src/allocator/heap.c:596-640 | In memory and on one cache alone, hands out one block, its link word now the owner, and conserves all others; fails only with every list empty and no span. |
| `HeapLists.BlockLists.PushRemote` | memx/src/allocator/heap.c:1276-1282 | In memory, the block heads the remote queue. |
| `HeapLists.BlockLists.DetachClass` | memx/src/allocator/heap.c:1078-1120 | In memory, every block of the cache ends up a chunk of its own, in the order the loops push them. |
| `HeapViews.ReturnView` | memx/src/allocator/heap.c:489-532 | The return of a block in the transition system puts exactly the segment the list methods flush on top of the bin, and changes no other bin. |
| `HeapViews.CarveAllBins` | memx/src/allocator/heap.c:438-460 | A span carved in the transition system gives the chunks the carving loop builds, in its order. |
| `HeapViews.SurrenderView` | memx/src/allocator/heap.c:1096-1120 | A class surrendered in the transition system gives the chunks the detach loops push, in their order. |
| `HeapLayout.SavedCore` | memx/src/allocator/heap.c:300-640 | A move on one class of one cache leaves the words of every other cache, class and bin describing their lists. |
| `HeapLayout.ReturnBlock` | memx/src/allocator/heap.c:467-532 | On the words of the whole heap, returning a block is the move of the transition system and writes only to that block and the old spare segment. |
| `HeapLayout.CarveBlocks` | memx/src/allocator/heap.c:408-460 | On the words of the whole heap, carving is the move of the transition system and writes only to the new blocks. |
| `HeapLayout.SurrenderWords` | memx/src/allocator/heap.c:1096-1120 | On the words of the whole heap, surrendering a class is the move of the transition system. |
| `HeapProgram.RouteWords` | memx/src/allocator/heap.c:1236-1275 | Reading the owner from the link word, or taking the shortcut, is the routing step of the transition system. |
| `HeapProgram.RefillWords` | memx/src/allocator/heap.c:574-593 | The critical section of a refill on the words is that of the transition system. |
| `HeapProgram.Perform` | memx/src/allocator/heap.c:251-1294 | One step of any thread on words alone is one step of the transition system, and the words describe its new state. |
| `HeapProgram.RunWords` | memx/src/allocator/heap.c:251-1294 | After any run of any threads every head, tail, count, link and chunk description in memory agrees with the lists of the transition system, and the link word of every block outside the heap names its owner. |
| `HeapLists.DrainedHeld` | memx/src/allocator/heap.c:467-487 | Draining conserves blocks. |
| `HeapLists.CarvedHeld` | memx/src/allocator/heap.c:438-460 | Carving publishes every block of the span once. |
| `SpanLayout.AlignUpFacts` | memx/src/allocator/heap.c:182-188 | Rounding up gives the least multiple not below the value, or zero on overflow. |
| `SpanLayout.BlocksApart` | memx/src/allocator/heap.c:408-450 | Distinct block numbers give disjoint strides. |
| `SpanLayout.SpansApart` | memx/src/allocator/heap.c:370-405 | Distinct spans are disjoint. |
| `SpanLayout.SpanInside` | memx/src/allocator/heap.c:370-405 | A span below the capacity lies inside the arena. |
| `Arena.HeapArena.CommitThrough` | memx/src/allocator/heap.c:336-353 | Commits whole chunks that reach the requested byte and never pass the arena. |
| `Arena.HeapArena.ClaimSpan` | memx/src/allocator/heap.c:360-406 | Claims the next span in the index, the class table and its header, all or nothing; fails only for capacity, commit or index memory. |
| `Arena.HeapArena.SmallBlock` | memx/src/allocator/heap.c:748-789 | Succeeds exactly on payload starts of carved blocks, with the block and class of the unchecked path. |
| `Arena.HeapArena.Unchecked` | memx/src/allocator/heap.c:1327-1400 | Pointer arithmetic and the class table give header and class of an arena pointer. |
| `Arena.NewBlocksAreFresh` | memx/src/allocator/heap.c:408-462 | A newly claimed span gives blocks not carved from any earlier span. |
| `HeapArenaRuns.Advance` | memx/src/allocator/heap.c:408-462 | With spans taken from the arena in order, every step keeps the carved blocks exactly the blocks of the claimed spans, with their classes. |
| `HeapArenaRuns.RunIsRun` | memx/src/allocator/heap.c:300-1294 | A run with the arena is a run of the heap, so every theorem about those holds. |
| `HeapArenaRuns.BlocksAreSpans` | memx/src/allocator/heap.c:408-462 | After any run a block is carved exactly when it is block j of a claimed span i, for one pair only, and has the class of that span. |
| `HeapArenaRuns.PayloadsAreCarved` | memx/src/allocator/heap.c:748-789 | After any run the checked lookup accepts exactly the payloads of carved blocks, and both lookups give the class the heap carved them for. |
| `HeapArenaRuns.RefillDelivers` | memx/src/allocator/heap.c:574-593 | While the arena has a span left and the system grants it, the refill step delivers a block of the requested class. |
| `LargeIndex.Index.Rehash` | memx/src/allocator/heap.c:655-681 | Relinks every node into its bucket of the new table, once, walking the old chains by their next words; a failed allocation changes nothing. |
| `LargeIndex.Index.Insert` | memx/src/allocator/heap.c:709-746 | Adds exactly the record; fails only when a full table cannot grow. |
| `LargeIndex.Index.Find` | memx/src/allocator/heap.c:791-813 | Finds the record of a pointer exactly when there is one, and the node whose next word leads to it. |
| `LargeIndex.Index.Unlink` | memx/src/allocator/heap.c:1357-1371 | The next word before a node passes it by; every other chain stays strung through its nodes. |
| `LargeIndex.Index.Remove` | memx/src/allocator/heap.c:1357-1371 | Removes exactly the record of the pointer; a failed shrink fails nothing. |
| `LargeIndex.GrowPays` | memx/src/allocator/heap.c:683-694 | The potential saved since the last resize pays for growing. |
| `LargeIndex.ShrinkPays` | memx/src/allocator/heap.c:696-707 | The potential saved since the last resize pays for shrinking. |
| `LargeIndex.Perform` | memx/src/allocator/heap.c:644-813 | One allocation or free changes the records as a set keyed by pointer, and is charged for at most two relinks. |
| `LargeIndex.PerformAll` | memx/src/allocator/heap.c:644-813 | Any run from an empty index acts as that set and relinks at most two records per operation, whatever table allocations fail. |
| `Radix.IndexExact` | memx/bench/baselines.c:95-111 | Exactly the managed addresses have an index, always below the entry count. |
| `Radix.Flat.Set` | memx/bench/baselines.c:146-156 | Changes exactly one entry, exactly for managed addresses. |
| `Radix.Flat.Lookup` | memx/bench/baselines.c:158-166 | Answers from the flat contents. |
| `Radix.TwoLevel.Set` | memx/bench/baselines.c:233-256 | Changes exactly one entry; a failed allocation changes none. |
| `Radix.TwoLevel.Lookup` | memx/bench/baselines.c:258-272 | Answers as the flat map of its contents. |
| `Radix.Trie.Set` | memx/bench/baselines.c:378-414 | Changes exactly one entry and moves no leaf; a failed allocation changes no entry. |
| `Radix.Trie.Lookup` | memx/bench/baselines.c:416-431 | Answers as the flat map of its contents. |
| `Radix.Trie.CachedLookup` | memx/bench/baselines.c:480-512 | Hit or miss, answers as the uncached lookup and keeps the cached leaves those of the trie. |
| `Radix.RunAll` | memx/bench/baselines.c:146-512 | Over any interleaving of sets and lookups the cached trie, the trie, the two-level and the flat map agree. |

## Left out

- C memory blocks are entries of maps from pointer words to their contents, because descriptors are tagged words; a block is reached only through such a word.
- `size_t` and `uintptr_t` have one width, the word width of the configuration; `int` enumerations are datatypes, and configurations with policy, hint or directory codes outside the enumerations are not modelled.
- AdaptiveIndex.Allocator.Reserve: the page and huge-page shifts are parameters; probing the host for them and advising the kernel are left out.
- AdaptiveIndex.Create: blocks another client takes after the creation of an index are not in its ledger, so two indexes share an allocator only one inside the lifetime of the other.
- Destroying an index or collapsing a region also rewrites words that are about to be freed; those writes are not modelled.
- The getters that fill view structures (memx/src/memx.c:701-756) only copy fields; the views are read directly.
- HeapRuns.Next: treats each critical section, each atomic access and each stretch of thread-private list code as one step, with sequentially consistent atomics and the thread-local cache list as per-thread state.
- HeapLists.BlockLists.AllocateSmall: runs the whole operation on one size class of one cache without interleaving; `HeapProgram.Perform` has the steps of the same operation for all threads, caches and classes.
- HeapLists.BlockLists.DetachClass: as AllocateSmall; the loops over all classes are in `HeapProgram.UnlinkWords` and `HeapProgram.SurrenderStepWords`.
- HeapProgram.Perform: the class of a block is read from a table of all blocks where the source reads the span header, and requested sizes are arbitrary.
- Activity counters, peak tracking, `realloc`, `calloc`, usable-size queries, heap statistics and heap destruction are left out; they add members but no new protocol.
- Caller violations of the unchecked interfaces, and destruction racing with use, are undefined in the source and not modelled.
- LargeIndex.Index.Rehash: the byte-size overflow check of the table is one of the reasons an allocation may be refused.
- The mapping calls of large allocations are left out; a new mapping has a node and a pointer not in use.
- LifecycleTable.Table.Find: the hash is an arbitrary function, so nothing depends on the mixer.
- TraceText.Read: file handles and input errors are left out; a file is its sequence of characters, and memory for events is granted up to a given number.
- TraceText.SplitCsv: works on strings instead of cutting the line buffer in place.
- Replay.ReplayInto: leaves out timing, the checksum and the peak of accounted bytes.
- Generator.TraceGenerator.Generate: random draws are arbitrary choices, and the base address is not negative; a negative base prints an address the reader cannot parse.
- Radix.Trie.Set: block sizes and byte accounting of the baselines, and freeing them, are left out.
- The malloc shim, the operating-system layer, benchmarks, fuzz drivers and the other Python tools are left out.
