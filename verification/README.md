# Code-detail pipeline: a verified model

The coverage service splits a source file into regions, keeps its lines in fixed-size sidecar
chunks, caches identities, overlays and chunks under one byte budget, and overlays versioned
review data; the browser streams, pages and virtualises the result.  Almost every piece is a fast
or cached form of something simple, and several are protocols between threads, requests or
machines.  This project models those pieces and proves what they promise.

Run `dafny verify dfyconfig.toml`.

| file | models |
|---|---|
| `Options`, `Sorting`, `Counting`, `Caching` | optional values, stable sorting, sums over sequences, the byte budget and ordered dictionaries |
| `FunctionLookup`, `FunctionExtraction`, `KnownRanges` | function ranges: sanitising, extracting, looking up, validating |
| `CodeRegions`, `Layout`, `BlockGrouping` | gap merging and tiling, the fast and slow layout routes, review blocks |
| `OverlayRanges`, `OverlayFreshness` | the canonical overlay key; freshness of cached overlays under commits |
| `ChunkedSidecar`, `SidecarRoundTrip`, `BatchPacking` | saving and reading chunked sidecars; packing region requests |
| `SidecarStores`, `ServiceCaches`, `SingleFlight` | the shared-budget caches and single-flight loading |
| `KeysetPaging`, `PendingSnapshot` | the paged server and the client that reads a complete snapshot |
| `ChunkStreaming`, `VirtualHeights`, `ChunkResidency`, `WindowRequests` | the browser's streaming loader, height index, resident chunks and overlapping window requests |

Code that updates objects in place is modelled by classes and loops proved against functions of
the old state; protocols between threads are transition systems whose steps are the locked
sections (or, in the browser, the stretches between two awaits), with theorems over every run.

## Where the code differs from what it seems to promise

Each of these is proved, with the exact condition under which the expected property holds.

- A put never prefers its own cache for evictions: the preference is passed as a list that holds a
  pair and is skipped.  `PutEvictsItsOwn` says for each of the three caches exactly when a put leaves
  the other two alone; `ChunkPutEvictsMetadata` is a state where it does not.
- Saving an empty file writes no chunk, so chunks of earlier saves with the same chunk size are still
  served: `EmptySaveServesOldLines` says exactly which lines, `NoStaleLineIsServed` exactly when none.
- The full-context read asks for one window of up to 20000 lines while a single range is limited
  to 10000: `FullRead` gives the exact condition, `LongFileIsRefused` is a file of 10001 lines.
  `LargeRead` does the same for windowed reads.
- Not every batch that the service accepts can be read: all of them can, exactly if the file has at
  most 256 chunks (`EveryAcceptedBatchIsServed`).
- Sanitised function ranges may overlap: they are disjoint exactly if no two surviving inputs overlap
  inside the file (`SanitizedAreDisjoint`; `OverlapSurvives` is a pair that does).
- The overlay falls back to the legacy table when the domain table has no row in the requested
  ranges, so a range read can show reviews that the layout does not (`RangeReadMatchesFullRead`).
- Without an overlay the slow layout route reports nothing pending (`LayoutsAgree`; one uncovered line
  is enough, `RoutesDisagreeWithoutOverlay`).
- The chunk loader cleans up only after ordinary exceptions: an owner that dies of anything else
  leaves its key in flight for ever (`QuietIffDoneOrOrphaned`, `CrashedLoaderBlocksItsKey`).  A loader
  never leaves a request waiting exactly if it cleans up after every failure (`FinishesIffCleansUp`).
- Spacers and rendered rows add up to the total height exactly if no rendered row is lower than
  one pixel (`RenderWindow`).
- A scroll makes sure that one window is loaded and draws another: the drawn window lies inside the
  first exactly if the viewport is near the top of the region and shows no fewer rows than it would
  at the base height (`RenderedInsideLoaded`, `OpenPanelOutgrowsLoadedWindow`).
- One missing chunk file fails every read that has to load the metadata, also reads that do not need
  that chunk.  A read of a saved file is answered exactly if no declared chunk file is lost, or valid
  metadata is cached and none it needs is lost; then it still returns exactly the lines
  (`ReadAfterLoss`, from `ReadNeedsInventory` for any directory; `LostChunkHidesOtherLine` is a file
  of two chunks).
- A window whose rows have all been answered need not be fully loaded when it is drawn: a scroll in
  between protects other chunks, and a later answer may evict what the window found loaded.
  `WindowAtRender` says exactly when it is, `OverlappingWindowIsLost` is a run in which it is not.

## Model

| member | source | states |
|---|---|---|
| FunctionLookup.SanitizeFunctionRanges | app/code_detail/code_region.py:107-143 | the loop computes `SanitizedRanges` for every input, nested, overlapping or out of bounds |
| FunctionLookup.SanitizedRanges | app/code_detail/code_region.py:107-143 | the sanitised ranges are exactly the valid inputs clipped to the file, in start order, each a nonempty part of 1..N |
| FunctionLookup.SanitizedForAnyLength | app/code_detail/code_region.py:107-143 | for any file length, known or not: the result is sorted by start and end and holds exactly the inputs that begin in the file, cut off at its last line |
| FunctionLookup.SanitizedAreDisjoint | app/code_detail/code_region.py:107-143 | they are pairwise disjoint iff no two surviving inputs overlap inside the file |
| FunctionLookup.OverlapSurvives | app/code_detail/code_region.py:107-143 | two overlapping ranges that sanitising leaves as they are |
| FunctionLookup.FindFunctionContainingLine | app/code_detail/code_region.py:146-170 | the bisect lookup returns the last function starting at or before the line if it contains it, and none otherwise |
| FunctionLookup.SweepFunctions | app/code_detail/code_region.py:215-236 | the two-pointer sweep gives every line of an ascending list the same answer as the bisect lookup |
| FunctionLookup.LookupFindsTheUniqueFunction | app/code_detail/code_region.py:146-170 | on disjoint ordered ranges the lookup finds a function iff some function contains the line, and that one only |
| FunctionExtraction.ExtractFunctionRanges | app/code_detail/source_reader.py:412-606 | the line-by-line scanner finds exactly the functions of a recursive description, and these are the ranges of the signatures that lead to a body, none left out; each range closes at the first body line where the running brace depth is at most zero, or at the last line |
| FunctionExtraction.FunctionsExplained | app/code_detail/source_reader.py:412-606 | on the lines alone: the file is cut into signatures one behind the other; each heads at the first line that can, begins with the unbroken run of plain lines before it, closes its parentheses, and leads to a body unless that line or a later one ends a declaration or 30 lines pass without a brace |
| FunctionExtraction.RunIsUnique | app/code_detail/source_reader.py:522-529 | there is one such run before a line |
| FunctionExtraction.ExtractedRangesAreDisjoint | app/code_detail/source_reader.py:412-606 | over strictly increasing line numbers the extracted ranges are ordered and pairwise disjoint |
| KnownRanges.ValidatedKnownRanges | app/code_detail/source_reader.py:609-661 | known ranges are used iff there are some, all are well formed and no two maximal ones cross; then the result is exactly the maximal input ranges, in order and disjoint |
| CodeRegions.BuildCodeRegions | app/code_detail/code_region.py:173-314 | the regions tile 1..N once, alternate expanded and collapsed, and the expanded lines are exactly the gap closure of what the pending lines ask for: all lines of the function a pending line lies in, or else the lines of the file at most `context` away |
| CodeRegions.MapPendingLines | app/code_detail/code_region.py:215-236 | every valid pending line is mapped to exactly the lines it asks for: its function's, or its own context |
| CodeRegions.MergeClose | app/code_detail/code_region.py:241-264 | the in-place merge of sorted ranges computes `MergedRanges` |
| CodeRegions.MergedRanges | app/code_detail/code_region.py:241-264 | merged ranges are ordered and separated by more than the merge gap |
| CodeRegions.MergedIsGapClosure | app/code_detail/code_region.py:241-264 | a line is in a merged range iff it is in a raw range, or its nearest covered lines on both sides exist and enclose at most the merge gap |
| CodeRegions.FillCollapsed | app/code_detail/code_region.py:266-312 | collapsed regions fill exactly what the expanded ones leave, so the whole is contiguous from 1 to N |
| CodeRegions.PendingLinesAreExpanded | app/code_detail/code_region.py:173-314 | every pending line inside the file lies in an expanded region |
| CodeRegions.LayoutIsUnique | app/code_detail/code_region.py:173-314 | the layout is determined by the set of pending lines: their order and repetitions do not matter |
| BlockGrouping.BuildSemanticBlock | coverage_enhance.js:3262-3291 | the inner loop returns the block opened at a line, whatever the structural text test answers |
| BlockGrouping.GroupByCounting | app/code_detail/source_reader.py:827-890 | the counted-set form produces the specified blocks, which group the lines, and places exactly their lines at their block's span and kind, one entry each |
| BlockGrouping.GroupBySkipping | coverage_enhance.js:3293-3308 | the skip-behind-the-block form produces the same blocks as the counted-set form |
| BlockGrouping.BlocksGroupTheLines | app/code_detail/source_reader.py:827-890 | the pending lines are partitioned into blocks with disjoint spans, one reviewer, no covered line inside, and no block leaves out a line that could be added |
| BlockGrouping.BlockAtIsMaximal | coverage_enhance.js:3262-3291 | no later pending line may follow the last line of a block |
| BlockGrouping.InOneBlock | app/code_detail/source_reader.py:827-890 | no line belongs to two blocks |
| OverlayRanges.ComputeOverlayKey | app/code_detail/vnext_service.py:381-394 | the merging loop computes the key function on the sorted, deduplicated ranges |
| OverlayRanges.KeyDenotesTheLines | app/code_detail/vnext_service.py:381-394 | the key's intervals are sorted and not adjacent and cover the same lines as the non-empty inputs |
| OverlayRanges.SameKeyIffSameLines | app/code_detail/vnext_service.py:381-394 | two range lists get the same key iff they denote the same set of lines |
| OverlayFreshness.OverlaysAreFresh | app/code_detail/vnext_service.py:213-379 | over all runs of requests, commits and evictions: a request that resolved version v gets exactly the rows it asked for of one table in one state of version >= v >= the version at its start, in order, from the legacy table only if the domain table had none of them; and the current overlay if no commit overtook it |
| OverlayFreshness.WithinPicks | app/code_detail/vnext_service.py:448-459 | a ranged read returns every row whose line lies in a range, as often as it is there and in the order of the table, and no other |
| OverlayFreshness.StoredOverlayIsShared | app/code_detail/vnext_service.py:424-474 | what one request stores the next one for the same version and ranges answers with, without reading |
| OverlayFreshness.StepKeepsInv | app/code_detail/vnext_service.py:417-482 | every step keeps: whatever is cached under version v was read in a state of version at least v, and history is never rewritten |
| OverlayFreshness.OverlayStepKeepsRequest | app/code_detail/vnext_service.py:417-482 | cache hit, miss, the two table reads and the store, bypassed or not, keep the request's overlay fresh |
| OverlayFreshness.IdentityStepKeepsRequest | app/code_detail/vnext_service.py:213-379 | lookup, version query, recheck, load and publish leave a request only with a version its own connection has read |
| OverlayFreshness.RangeReadMatchesFullRead | app/code_detail/vnext_service.py:448-459 | a range read equals the whole-file overlay restricted to the ranges iff the domain table has a row there, or none at all, or the legacy table has none there; also stated on the rows of the tables |
| OverlayFreshness.RangeReadShowsLegacyReview | app/code_detail/vnext_service.py:448-459 | a concrete state where the two differ |
| Layout.BuildOverlay | app/code_detail/overlay_cache.py:28-36 | for every line the last record with a positive line number wins |
| Layout.LastRecordIs | app/code_detail/overlay_cache.py:28-36 | which record that is, by its position |
| Layout.PendingOrConfirmed | app/code_detail/source_reader.py:203-219 | under an overlay an uncovered line is confirmed iff the last of its records is conclusive and no draft, and pending otherwise; other lines are neither |
| Layout.SourceContext.RefreshAnalysisRecords | app/code_detail/service.py:411-453 | rewriting every line in place yields the overlay's states, the pending list and the confirmed count; without an overlay neither the lines nor the counts change |
| Layout.FastLayout | app/code_detail/service.py:484-514 | the metadata route answers with the counts and layout of the unconcluded uncovered lines |
| Layout.VNextLayout | app/code_detail/vnext_service.py:575-603 | the versioned service gives the same answer on a list without repetitions |
| Layout.SlowLayout | app/code_detail/service.py:539-576 | the full-context route answers from the refreshed lines |
| Layout.CountsAgree | app/code_detail/service.py:411-453 | line-by-line pending and confirmed counts are those of the set of uncovered lines |
| Layout.PendingLinesInOrder | app/code_detail/service.py:411-453 | the pending lines are listed from top to bottom, each once |
| Layout.StoredConfirmedCounts | app/code_detail/service.py:539-576 | the confirmed count of a stored context is the number of its uncovered lines with a conclusive state and no draft |
| Layout.LayoutsAgree | app/code_detail/service.py:471-576 | fast and slow route give the same answer iff an overlay is present or nothing is uncovered |
| Layout.RoutesDisagreeWithoutOverlay | app/code_detail/service.py:471-576 | one uncovered line and no overlay: one pending line on the fast route, none on the slow one |
| ChunkedSidecar.Sidecar.SaveChunkedSidecar | app/code_detail/sidecar_store.py:669-741 | after a save the metadata and chunk files hold exactly the lines, chunk by chunk |
| ChunkedSidecar.Sidecar.LoadLinesRanges | app/code_detail/sidecar_store.py:468-573 | any list of ranges is answered or refused as the specification says, from validated or cached metadata, each needed chunk decoded once |
| ChunkedSidecar.SavedIsLoaded | app/code_detail/sidecar_store.py:231-263 | the metadata of a save passes the inventory check, cached or not |
| ChunkedSidecar.ReadNeedsInventory | app/code_detail/sidecar_store.py:231-263 | over any directory a read is answered iff it is admissible, its metadata is cached or the whole inventory is there, and the chunks it needs are there |
| ChunkedSidecar.Sidecar.LoadLinesRange | app/code_detail/sidecar_store.py:575-615 | the single-range read, one-shot or by windows |
| ChunkedSidecar.Sidecar.LoadFullSourceContext | app/code_detail/sidecar_store.py:617-667 | the full read by windows of 20000 lines |
| ChunkedSidecar.ChunkIsQuotient | app/code_detail/sidecar_store.py:508-513 | the chunk of a line is the quotient of its index by the chunk size |
| ChunkedSidecar.NeededAreQuotients | app/code_detail/sidecar_store.py:508-513 | a chunk is needed iff a requested line lies in it |
| ChunkedSidecar.AnswerIsSorted | app/code_detail/sidecar_store.py:541-553 | over any directory a range is answered with exactly the rows of its chunks that lie in it, sorted by line number |
| ChunkedSidecar.ChunkTotalIsCeiling | app/code_detail/sidecar_store.py:689 | the number of chunks is the ceiling of N by the chunk size |
| ChunkedSidecar.NamesAreDistinct | app/code_detail/sidecar_store.py:524-533 | different chunks have different file names |
| SidecarRoundTrip.RoundTrip | app/code_detail/sidecar_store.py:468-553 | after a save every admissible list of ranges returns exactly the matching slices, in order, for every chunk size |
| SidecarRoundTrip.ReadAfterLoss | app/code_detail/sidecar_store.py:231-263 | after any chunk files of a save are lost an admissible read is answered iff no declared file is lost, or valid metadata is cached and no file it needs is lost; it then returns exactly the matching slices |
| SidecarRoundTrip.LostChunkHidesOtherLine | app/code_detail/sidecar_store.py:231-263 | two chunks, the second file lost: a read of line 1 finds nothing uncached and is answered cached |
| SidecarRoundTrip.EmptyFileRead | app/code_detail/sidecar_store.py:516-540 | a read after saving an empty file is found iff every chunk file it needs exists, and returns exactly what those files hold in its ranges |
| SidecarRoundTrip.EmptySaveServesOldLines | app/code_detail/sidecar_store.py:516-540 | over the chunk files of one earlier save it is found iff every range ends in an old chunk, and returns exactly the old lines in the ranges |
| SidecarRoundTrip.NoStaleLineIsServed | app/code_detail/sidecar_store.py:516-540 | no read serves a stale line iff no chunk file of that chunk size is left |
| SidecarRoundTrip.SaveKeepsInPlace | app/code_detail/sidecar_store.py:692-707 | saves keep every chunk file, also older ones, filled with lines in place |
| SidecarRoundTrip.StaleLineIsServed | app/code_detail/sidecar_store.py:516-540 | an empty re-save leaves a line of the earlier save readable |
| SidecarRoundTrip.ChunkCount | app/code_detail/sidecar_store.py:514-515 | how many chunks a span needs |
| SidecarRoundTrip.LargeRead | app/code_detail/sidecar_store.py:594-611 | the windowed read returns the one-shot slice iff the chunk size is at least 40 and the span lies in the file |
| SidecarRoundTrip.FullRead | app/code_detail/sidecar_store.py:617-647 | the full read returns all lines iff the file is empty or has at most 10000 lines in at most 256 chunks |
| SidecarRoundTrip.FullReadIsAuthentic | app/code_detail/sidecar_store.py:648-657 | whatever has become of the chunk files, a full read returns the saved lines or nothing |
| SidecarRoundTrip.LongFileIsRefused | app/code_detail/sidecar_store.py:617-647 | a saved file of 10001 lines cannot be read back, whatever its chunk size |
| BatchPacking.InitialBatchGroups | coverage_enhance.js:1327-1347 | the loop computes the greedy grouping |
| BatchPacking.GreedyFits | coverage_enhance.js:1327-1347 | groups flatten to the input order and each passes the server's count, span and total limits |
| BatchPacking.GreedyIsOptimal | coverage_enhance.js:1327-1347 | no order-preserving split within the limits uses fewer groups |
| BatchPacking.AcceptBatch | app/code_detail/vnext_service.py:636-668 | the server accepts a batch iff count, every span, the bounds and the total are within its limits |
| BatchPacking.LegalBatchRefusedBySidecar | app/code_detail/sidecar_store.py:509-515 | for every chunk size, a file of more than 256 chunks has a batch that the service accepts and the sidecar refuses |
| BatchPacking.EveryAcceptedBatchIsServed | app/code_detail/sidecar_store.py:509-515 | every accepted batch passes the sidecar's checks iff the file has at most 256 chunks |
| Caching.ByteBudget.TryAcquire | app/code_detail/cache_budget.py:19-25 | bytes are taken iff they fit |
| Caching.ByteBudget.Release | app/code_detail/cache_budget.py:27-29 | bytes are given back, never below zero |
| Caching.MovedKeeps | app/code_detail/sidecar_store.py:250-255 | a hit makes the entry the newest and leaves the others in their order |
| Caching.WithoutTakesOut | app/code_detail/sidecar_store.py:135-148 | a removal takes out the one entry and leaves the others in their order |
| SidecarStores.SidecarStore.Remove | app/code_detail/sidecar_store.py:135-148 | exactly the removed entry's size leaves the counters and the budget; the clamps never bite |
| SidecarStores.SidecarStore.EvictOldest | app/code_detail/sidecar_store.py:150-163 | evicts the oldest metadata, else legacy, else chunk entry, and fails iff the store is empty |
| SidecarStores.SidecarStore.Put | app/code_detail/sidecar_store.py:165-197 | the whole new contents after a put, stored or refused, with exactly the evictions it needs; counters stay the sums and no bound is exceeded |
| SidecarStores.ClearedForm | app/code_detail/sidecar_store.py:165-197 | a put evicts the first k entries in the order metadata, legacy, chunks, oldest first: the least number after which the cache has room, and then the least after which the store has |
| SidecarStores.SidecarStore.ClearCaches | app/code_detail/sidecar_store.py:199-208 | everything is removed and exactly the held bytes are given back |
| SidecarStores.SidecarStore.Touch | app/code_detail/sidecar_store.py:250-255 | a hit makes the entry the newest |
| SidecarStores.PutKeepsBounds | app/code_detail/sidecar_store.py:165-197 | the evictions of a put end with room for the entry and keep every bound |
| SidecarStores.PutEvictsItsOwn | app/code_detail/sidecar_store.py:150-197 | for every cache: the evictions of a put leave the other two as they were iff none is needed, or the caches before it in the order metadata, legacy, chunk are empty and the others' bytes leave room for the entry |
| SidecarStores.ChunkPutEvictsMetadata | app/code_detail/sidecar_store.py:150-197 | a state where a chunk put empties the metadata cache |
| SidecarStores.FullChunkCacheDrainsTheOthers | app/code_detail/sidecar_store.py:150-197 | making room in a full chunk cache empties the other two before the oldest chunks go |
| SidecarStores.MetadataEvictsItself | app/code_detail/sidecar_store.py:150-197 | making room for metadata evicts metadata only, oldest first |
| ServiceCaches.Service.RemoveServiceEntry | app/code_detail/vnext_service.py:128-141 | one entry and its index entry go, with exactly its bytes |
| ServiceCaches.RemovedIsGone | app/code_detail/vnext_service.py:128-141 | exactly that entry is taken out, the others stay in their order, and the index loses exactly what pointed to it |
| ServiceCaches.Service.StoreServiceEntry | app/code_detail/vnext_service.py:143-170 | the entry's old version goes, then the least number of the oldest entries of that cache after which there is room, with exactly their index entries; the entry is added as the newest iff it is within the size limits and both budgets have room then |
| ServiceCaches.RoomTakesOldest | app/code_detail/vnext_service.py:153-158 | making room takes the oldest entries, no fewer than needed and no more |
| ServiceCaches.Service.LookupIdentity | app/code_detail/vnext_service.py:223-228 | finds the identity iff it is indexed, and makes it the newest |
| ServiceCaches.Service.LookupOverlay | app/code_detail/vnext_service.py:424-431 | finds the overlay iff it is cached, and makes it the newest |
| ServiceCaches.Service.DropStaleIdentity | app/code_detail/vnext_service.py:254-259 | drops the stale identity iff it is still the indexed one |
| ServiceCaches.Service.PublishIdentity | app/code_detail/vnext_service.py:363-369 | the key is indexed iff it is cached, so the index never names an absent key |
| ServiceCaches.Service.LookupStore | app/code_detail/vnext_service.py:172-177 | a store in use becomes the newest |
| ServiceCaches.Service.AdoptStore | app/code_detail/vnext_service.py:187-197 | the faster thread's store is used and made the newest; otherwise the candidate, and the least recently used store is cleared when there are too many |
| ServiceCaches.StoreKeepsBounds | app/code_detail/vnext_service.py:143-170 | storing keeps entry counts, each cache's bytes and their sum within bounds and the index sound |
| ServiceCaches.RemovedProperties | app/code_detail/vnext_service.py:128-141 | removing an entry keeps the index sound and takes exactly its bytes |
| ServiceCaches.RoomKeepsOtherCache | app/code_detail/vnext_service.py:143-170 | making room in one cache leaves the other untouched |
| ServiceCaches.Service.StorePut | app/code_detail/sidecar_store.py:165-197 | a put into any store, in use or not, moves the store's bytes and the shared budget together |
| ServiceCaches.Service.StoreRemove | app/code_detail/sidecar_store.py:275-279 | a failed load drops the cached entry with exactly its bytes |
| ServiceCaches.Service.StoreTouch | app/code_detail/sidecar_store.py:250-255 | a hit in a store changes only the order of its cache |
| ServiceCaches.Run | app/code_detail/vnext_service.py:128-197 | conservation over every run of service and store operations: the shared budget equals the sum over both caches and every store ever created, within all bounds |
| SingleFlight.SingleFlightIsSafe | app/code_detail/sidecar_store.py:345-396 | N interleaved requests make at most N loads, owners and keys in flight match one to one, and every answer was loaded by some owner for that key |
| SingleFlight.OneOwnerPerFlight | app/code_detail/vnext_service.py:261-379 | a key is in flight iff exactly one thread owns it |
| SingleFlight.StepKeepsInv | app/code_detail/vnext_service.py:220-379 | every step of every thread, with evictions and bypassed stores, keeps the invariant; a waiter's event is set or is its key's current one |
| SingleFlight.StepKeepsExclusive | app/code_detail/sidecar_store.py:345-396 | with lookup and join in one locked section no key is both cached and in flight |
| SingleFlight.OwnerReturnsItsLoad | app/code_detail/sidecar_store.py:381-396 | an owner returns the value it loaded, stored or not |
| SingleFlight.LoadsOncePerKey | app/code_detail/sidecar_store.py:345-396 | while nothing fails and nothing is evicted every key is loaded once, and all requests for it return the same value |
| SingleFlight.CachedIsNotLoaded | app/code_detail/vnext_service.py:220-379 | a request that comes in while its key is cached and current never loads it |
| SingleFlight.QuietIffDoneOrOrphaned | app/code_detail/vnext_service.py:261-379 | nothing can move iff every thread has finished or waits for an owner that died without cleaning up |
| SingleFlight.StepReducesMeasure | app/code_detail/vnext_service.py:424-482 | every step of a thread lowers a natural number, whatever others evict |
| SingleFlight.SingleFlightEnds | app/code_detail/vnext_service.py:424-482 | runs are bounded, and when nothing can move all requests have finished if the loader cleans up after every failure |
| SingleFlight.FinishesIffCleansUp | app/code_detail/sidecar_store.py:369-379 | for any loader: whenever no request can move all have finished, in every run, iff the loader cleans up after every failure |
| SingleFlight.CrashedLoaderBlocksItsKey | app/code_detail/sidecar_store.py:369-379 | a handler for ordinary exceptions only, as the chunk loader has: a run of two requests that blocks the second for ever |
| KeysetPaging.PageIsNextRows | app/db/repositories/file_state_repository.py:678-733 | a page is the next rows after its cursor, has_more is exact and the next cursor continues right behind it |
| KeysetPaging.KeysetWalk | app/api/application.py:540-571 | following next_cursor to the end gives every matching row of that version once, in order, in pages of at most 500 |
| KeysetPaging.CursorIsBound | app/api/application.py:367-427 | a cursor is answered iff the request (scan, filter) and the data version are those that issued it |
| KeysetPaging.OnlyOwnCursors | app/api/application.py:367-427 | of all cursors only those of the request's own kind, scan, version and filter are answered, and only with rows behind their position |
| KeysetPaging.FilterKeysAreDistinct | app/api/application.py:543 | different requests on a scan have different cursor filters |
| KeysetPaging.DigitsAreInjective | app/api/application.py:837 | the decimal rendering of a file id is injective |
| KeysetPaging.MatchingIsSubsequence | app/api/application.py:552-562 | the WHERE clause keeps exactly the matching rows, in order |
| PendingSnapshot.FetchFileComplete | pending_snapshot.js:73-258 | any server: a result is strictly increasing, of declared length, uncancelled; every attempt that stops stale is repeated from its end, and the read gives up as changing only after maxRestarts + 1 of them; keyset server: exactly the requested version's pending lines; once an attempt begins in a state of that version that stays: succeeds iff the lines are distinct positive safe integers that fit |
| PendingSnapshot.Attempt | pending_snapshot.js:99-241 | one attempt ends as its pages say: cancelled, too long, at the first page that fails a check, or with the last page; the guarantees of the whole read hold for it |
| PendingSnapshot.ConsumePage | pending_snapshot.js:124-240 | one page is consumed as specified, check by check |
| PendingSnapshot.PageVerdicts | pending_snapshot.js:124-240 | a page is accepted iff it is whole, of the requested identity and path, with an unchanged total, new safe lines and a fitting unseen cursor; it starts the read over iff the cursor is stale or repeated, or identity, path or total have changed |
| PendingSnapshot.ReadLines | pending_snapshot.js:181-190 | the duplicate and range check accepts iff all lines so far are distinct, positive and safe |
| PendingSnapshot.AcceptedPage | app/api/application.py:824-879 | a page the client accepts was read at the requested version and holds exactly the next rows |
| PendingSnapshot.HonestPage | pending_snapshot.js:124-240 | one accepted page moves the client one full page further or finishes with every row |
| PendingSnapshot.SteadyPage | pending_snapshot.js:124-240 | while the version stays current only the line numbers themselves can be rejected |
| ChunkStreaming.StreamingIsOrdered | coverage_enhance.js:1562-1628 | for every interleaving: emitted lines are the in-order concatenation of the first chunks, each chunk is taken once by one of at most three workers, setLoaded gets all chunks without error, exactly start..end from an exact server |
| ChunkStreaming.StepKeepsInv | coverage_enhance.js:1577-1628 | every stretch between two awaits keeps the loader's invariant |
| ChunkStreaming.ChangedGenerationNeverLoads | coverage_enhance.js:1602-1626 | a load whose generation has changed never reaches setLoaded, hands on no further line and requests no further chunk |
| ChunkStreaming.FailedTakesNothing | coverage_enhance.js:1577-1628 | after a failed request no further chunk is requested and setLoaded is never reached |
| ChunkStreaming.NeverStuck | coverage_enhance.js:1599-1621 | until the load has ended some worker or the emitter can move |
| ChunkStreaming.StreamingEnds | coverage_enhance.js:1562-1628 | at most 5n + 9 moves; without failures and changes of generation the load ends in setLoaded |
| ChunkStreaming.ChunkList | coverage_enhance.js:1562-1569 | the chunk list covers start..end with consecutive chunks of 2000 lines |
| VirtualHeights.VirtualRegion.RebuildHeightIndex | coverage_enhance.js:2002-2014 | the rebuilt breaks are the running sums over the sorted measured rows |
| VirtualHeights.VirtualRegion.OffsetForIndex | coverage_enhance.js:2016-2029 | the binary search in the breaks equals the plain sum of the heights of the rows above |
| VirtualHeights.VirtualRegion.IndexAtOffset | coverage_enhance.js:2031-2043 | returns the row that contains the offset, clamped to the last |
| VirtualHeights.RowIsUnique | coverage_enhance.js:2031-2043 | there is only one such row |
| VirtualHeights.BreaksGiveSum | coverage_enhance.js:2016-2029 | base heights plus the last break above a row are the sum of the heights above it |
| VirtualHeights.VirtualRegion.RenderWindow | coverage_enhance.js:2076-2123 | the whole new state; with a fully measured window top spacer + rendered rows + bottom spacer equal the total height iff no rendered row is lower than one pixel |
| VirtualHeights.HeightsSeenAre | coverage_enhance.js:2091-2105 | the heights seen are those of the rows rendered and given a height, top to bottom |
| VirtualHeights.MedianIsMiddle | coverage_enhance.js:2106-2115 | the new line height is taken from their median: as many heights lie below the middle one or two as above |
| VirtualHeights.VisibleRowsFill | coverage_enhance.js:2045-2056 | the visible rows fill the viewport at the base height and one row less does not |
| VirtualHeights.VirtualRegion.ScrollWindowBounds | coverage_enhance.js:2057-2074 | the window around the rows at the viewport's top and bottom |
| VirtualHeights.RenderedInsideLoaded | coverage_enhance.js:2128-2140 | what a scroll draws lies inside the window it loaded iff that begins at row 0 and is long enough, stated also on the row heights and the viewport |
| VirtualHeights.OpenPanelOutgrowsLoadedWindow | coverage_enhance.js:2128-2140 | one high row at the top: rows 0 to 600 are loaded and rows 0 to 633 drawn |
| ChunkResidency.Region.MergeLoadedLines | coverage_enhance.js:1146-1182 | after a merge each slot shows the written line unless its chunk could be and was evicted; slots, chunks and count stay consistent |
| ChunkResidency.WrittenIs | coverage_enhance.js:1146-1165 | a written slot shows the last line of the response with its number, and any other what it showed before |
| ChunkResidency.Region.EvictVirtualChunks | coverage_enhance.js:1256-1280 | protected chunks and the first line of every open or unsaved panel, with its whole chunk, stay; whole chunks go, least recently used first, until at most 8000 lines or only kept chunks are left, and none while the region was within its budget |
| ChunkResidency.HasPinnedReviewPanel | coverage_enhance.js:1241-1255 | a chunk is pinned iff an expanded, dirty or unsaved panel of the region starts on one of its lines |
| ChunkResidency.PanelLinesStay | coverage_enhance.js:1256-1280 | the first line of such a panel keeps its slot and its chunk |
| ChunkResidency.ReachDoesNotPin | coverage_enhance.js:1241-1255 | a block that reaches into the next chunk pins only the chunk it starts in |
| ChunkResidency.Region.ProtectVirtualWindow | coverage_enhance.js:1230-1240 | exactly the physical chunks of the window are protected |
| ChunkResidency.Region.EnsureVirtualWindow | coverage_enhance.js:1476-1531 | a request that no other one overtakes: with complete answers the whole window is loaded afterwards, in whatever order they arrive and despite the evictions they cause; each chunk with an empty row of the window is requested once and no other, and a full window changes nothing but the protection |
| WindowRequests.Serve | coverage_enhance.js:2128-2140 | any number of overlapping requests, renders and answers, in any order, take the region to the state the run function gives |
| WindowRequests.AnswerIsNewest | coverage_enhance.js:1166-1173 | an answer makes exactly its own chunks the most recently used ones; the others stay as they are |
| WindowRequests.EvictedIffOverdue | coverage_enhance.js:1256-1280 | an eviction takes a chunk, whole, iff it is neither protected nor pinned and the region is over 8000 lines even without all evictable chunks used before it |
| WindowRequests.SlotAfterRun | coverage_enhance.js:2128-2140 | after any run a slot is filled iff it was filled or answered, and was answered again after every eviction of its chunk |
| WindowRequests.WindowAtRender | coverage_enhance.js:2128-2140 | a window whose missing chunks have been answered is fully loaded at its render iff every row whose chunk has been evicted since its request was answered again later |
| WindowRequests.HeldWindowStays | coverage_enhance.js:1256-1280 | it is fully loaded if no chunk of it left the protected set, unpinned, while an answer took the region over its budget |
| WindowRequests.SharedWindowStays | coverage_enhance.js:1230-1240 | it is fully loaded if every request in between protects its chunks too |
| WindowRequests.OverlappingWindowIsLost | coverage_enhance.js:2128-2140 | two overlapping requests after which the first window is drawn without a row it had found loaded |
| ChunkResidency.Region.FetchChunk | coverage_enhance.js:1461-1474 | fetching one physical chunk fills it and takes nothing from a protected chunk |
| ChunkResidency.MergeKeepsResident | coverage_enhance.js:1146-1173 | writing slots and joining groups to chunks keep every slot equal to its chunk's line |
| ChunkResidency.SizesAgree | coverage_enhance.js:1256-1262 | the lines of all chunks are as many as the filled slots, so the resident count is the loaded count |
| ChunkResidency.RemovedKeepsResident | coverage_enhance.js:1270-1278 | clearing a chunk's slots and deleting it keep slots and chunks together |

## Left out

- Comment and string cleaning and the regular expressions of the source reader: features of a line
  (function start, control flow, brace depth change) are inputs.
- Labels, function names and merged label text of regions.
- The legacy single-file sidecar format, path and symlink checks, JSON and HTML text; encodings and
  hashes are injective values, file names of chunks are shown distinct.
- Cache expiry clocks, telemetry counters and metrics.
- Locks: every locked section is one atomic step; the database, the network and the DOM's measured
  heights are parameters.
- Database leases: a lease reads states in version order, none older than its start (connections
  are rolled back when returned); every mutation of review data is a commit with a new version.
  Scans without a project have no version and are not part of the freshness model.
- The single-flight discipline inside `OverlayFreshness`: requests there may load and retry at
  will, which allows more runs than the code does.
- Whether valid metadata is cached is an input of a sidecar read and does not change during one.
- The context cache of service.py and the multi-file `fetchComplete` of pending_snapshot.js.
- Repeated line numbers in block grouping: lines are known by their position.
- `setLoaded` and the whole-region drop inside `ChunkResidency`: they leave the chunk table and the
  count stale; the model covers regions filled by merges only.
- `NaN` and infinite heights; heights are reals, and row indices and offsets integers and reals.
- Project lookups and role checks of the page handlers.
