# NVAlloc in Dafny

A model of the data structures at the heart of NVAlloc, a persistent-memory allocator, and proofs
about it.  Each part follows the C code branch by branch: classes and loops where the code updates
in place, functions where it computes.  Methods are proved against functions on values, and the
promises are proved about those.

| part | files |
|---|---|
| slot bitmaps, size classes, slab morphing | Bitmap, SizeClass, SlabSpec, SlabLayout, Slab, SlabTail, LruCount, SlabLru |
| left-leaning 2-3 red-black tree | RbSpec, RbTree, RbOps, RbWalks |
| log of allocations, its two collectors, crashes | LogSpec, LogCrash, LogState, LogDisk, Log, LogGc, LogArena, LogFast, LogFastCases, LogRuns, LogTimer, LogLayout, LogFastRun, LogChurn |
| pairing heap with auxiliary list | PhSpec, Ph, PhRemove |
| extents, page map, coalescing | PageClass, PageMapSpec, PageMap, ExtentSet, Coalesce, Protocol, ProtocolRace, ProtocolAlone |
| radix tree and its cache | LeafWord, Rtree |
| decay of unused pages | Smoothstep, Decay |

**Slabs.** A slab is a set of old blocks, a set of live new blocks and a set of cached slots.  The
representation - bitmap, interleaved metadata bits, per-slot overlap counts, table of old blocks -
agrees with it after every step, and in every run all blocks in use are disjoint.

**Red-black tree.** The heap of nodes is tied to a ghost tree by link predicates.  Pure functions give
the result of each unwinding round; balance is proved of the functions, and the loops over the path
array are proved to compute them.

**Log.** A disk is two images, the volatile one and the persisted one.  A crash leaves, field by field,
either value (an item is one word).  Each method lists the disks it passes through, and every one of
them recovers to the live set before or after the operation.

**Pairing heap.** Sibling lists are ghost forests; the multipass merge is a function on forests, and the
pointer loops are proved to compute it.

**Extents.** The page map is a map from pages to entries; agreement says what each extent shows.  The
sequential operations keep agreement, coherence of the set, and the covered pages.  A separate
state machine splits coalescing and recycling into single shared-memory steps of any number of
threads.

**Radix tree.** One tree, one two-level cache a thread; lookups refine the plain walk, and reads and
writes refine one map.  This justifies the map of the page-map part.

**Decay.** The backlog and its limit, with the smoothstep table as it stands and as the polynomial it
was generated from.

Where the code does not do what its use suggests:

- `fast_GC` never corrects the remembered predecessor of the chunk behind a collected one
  (src/log.c:305-309), and it unlinks from the highest address on.  The index is never harmed, and a
  crash during the collection loses nothing as long as no empty chunk remembers another chunk of the
  chain; but the persistent chain is right afterwards if and only if `FastSafe` held before
  (`LogFast.FastGc`).  `LogFastRuns.StaleRun` and `LogFastRuns.FallingRun` are runs from an empty log to
  the two ways in which it fails; in the first a replay then recovers nothing.  A program that only
  enters and frees extents gets there with its second fast collection, by the counters of the code
  (`LogChurns.ChurnRun`).
- `num_of_items` counts at most 100 items for a chunk but loses 126 when the chunk is collected
  (src/log.c:319-320), so it wraps around below zero, and the tests of src/log.c:230-234 divide by it
  without asking whether it is 0 (`LogTimers.EndAdd`).
- The fields of an item are assigned one by one (src/log.c:189-191).  They form one word, and the
  methods store it at once; `Log.TornItem` says what a replay finds if the word is written back between
  the second assignment and the third: an item of size 0.
- The size field of an item has 14 bits (include/nvalloc/internal/log.h:30), so of a size of 16 KiB or
  more only the remainder is logged: an extent of 64 KiB is logged with size 0, a slab of 64 KiB with
  size 1 (`LogSpec.WordIs`).
- A freed slab keeps the slab bit in its entries (src/extent.c:1203-1208), so delayed coalescing passes
  over it: `Coalescing.SlabBitHides` says when exactly, `Coalescing.FreedSlabStaysApart` is an instance.
  `Coalescing.Record` is stated in terms of what the map shows.
- `slab_pop_one_cache` counts a shadowed partial tail slot as taken and so refuses although one slot is
  left (src/slab.c:357-365).  `Slab.VSlab.Pop` says when exactly, `SlabTails.LooksFullEarly` is a run to
  such a slab.

## Model

| member | source | states |
|---|---|---|
| Bitmap.FirstFree | include/nvalloc/internal/bitmap.h:36-48 | the word-by-word search finds the lowest free bit of the whole bitmap |
| Bitmap.Sfu | include/nvalloc/internal/bitmap.h:36-55 | returns the lowest free bit and, on request, takes that bit and no other |
| Bitmap.TakenSlots | src/slab.c:265-280 | the scan over inverted words visits exactly the taken slots, in ascending order |
| SizeClasses.FitBoot | src/sizeclass.c:78-92 | the countdown stops at the largest slot count whose slots and metadata fit the slab: every larger count, not only the next, does not fit |
| SizeClasses.SizeclassBoot | src/sizeclass.c:78-105 | every class is cut maximally, and the global meta_size is the largest metadata area any class needs for one slot more than it has |
| SizeClasses.SizeclassReset | src/sizeclass.c:111-128 | re-cutting behind a table of old blocks keeps the slot size and is again maximal |
| SizeClasses.FillLookup | src/sizeclass.c:54-75 | the filled table maps each size to the smallest class that holds it |
| SizeClasses.MetaSizeIs | src/sizeclass.c:46-49 | get_meta_size is the least multiple of six cache lines with a bit for every slot, and the slot bitmap has the least number of 64-bit words |
| SizeClasses.BidToMidRoundTrip | include/nvalloc/internal/slab.h:123-130 | bid_to_mid is a bijection on the naturals, with its inverse given |
| SizeClasses.BidToMidInArea | src/sizeclass.c:46-49 | the bits of nbits slots stay inside the bytes that get_meta_size(nbits) reserves, though the mapping interleaves |
| SizeClasses.NeighboursOnDifferentLines | include/nvalloc/internal/slab.h:123-130 | slots whose numbers differ by less than 6 have their bits on different 64-byte lines |
| SlabSpec.BootAll | src/sizeclass.c:78-105 | booting the real class table gives maximal classes and a meta_size that covers every class |
| SlabSpec.MetaSizeValue | src/sizeclass.c:100-104 | the global meta_size is 1152 bytes, whichever way the classes were booted |
| SlabSpec.SlotInSlab | src/sizeclass.c:78-92 | every whole slot lies between the metadata and the end of the slab, for booted and re-cut classes |
| SlabSpec.TailEndsOutside | src/sizeclass.c:111-128 | a re-cut class leaves room for at most one partial slot behind the last |
| SlabSpec.ResetFitsMeta | src/sizeclass.c:111-128 | re-cutting never yields more slots than booting, so the global meta_size suffices for every morph |
| SlabSpec.OverlapIsScan | src/slab.c:308-328 | the slots from the one that holds the first byte of an old block while they start before its end are exactly the slots the block overlaps |
| SlabSpec.OverlapReachesTailOnly | src/slab.c:308-318 | every slot an old block overlaps has index at most nbits, and its interleaved metadata bit lies inside the metadata area |
| SlabSpec.TailSlotHasBitmapBit | src/slab.c:257-325 | the partial tail slot, number nbits, has a bit in the bitmap for every class served and every admissible table: nbits is then no multiple of 64 |
| SlabSpec.OldBlocksFitCounter | src/slab.c:86-95 | a slab that passes the 20% test has at most 203 live blocks, so the 8-bit num_b of a slab counts them exactly |
| SlabSpec.CounterFitsAbove50 | include/nvalloc/internal/slab.h:65-65 | of all classes that booting can make, the 8-bit counter holds the blocks that pass the test exactly for slots of more than 50 bytes; no request uses a smaller class |
| SlabSpec.TableSizeIs | src/slab.c:160-163 | the table of old blocks is the least multiple of a cache line with two bytes for every live block |
| SlabLayout.TakenIsCardinality | include/nvalloc/internal/bitmap.h:75-84 | bitmap_header.nbits as modelled is the number of zero bits |
| Slab.VSlab.Morph | src/slab.c:194-345 | morphing from step 2 on: reset if no block is live; re-cut if and only if every live block starts at or behind 64 + 1152 bytes plus the least multiple of 64 with two bytes for every live block, which is then where the new slots begin, and refused otherwise; when re-cut every old block is counted over each slot it overlaps, and the representation (bitmap, metadata bits, dmeta, table) agrees with the abstract slab afterwards |
| Slab.VSlab.CoverBlock | src/slab.c:308-332 | the inner loop of morphing adds one old block to exactly the slots that it overlaps, marking bitmap and metadata when a count leaves zero |
| Slab.VSlab.Pop | src/slab.c:347-421 | hands out the lowest slot that is neither taken nor under a live old block, with index below nbits; it refuses if and only if the class differs, nothing is available, or the partial tail slot is shadowed and exactly one slot is available |
| SlabLayout.FreeBelowTail | src/slab.c:357-365 | with the tail bit taken, the count of taken bits reaches nbits if and only if at most one of the first nbits is free |
| SlabTails.LooksFullEarly | src/slab.c:357-365 | a run from an empty slab of 64-byte slots, re-cut for 14336 bytes with one old block left, to a state in which slot 3 is available and the slab looks full |
| Slab.VSlab.FreeOldBlock | src/slab.c:463-545 | freeing an old block takes it off exactly the slots it overlaps, reopens those whose count reaches zero, and marks its table entry twice, before and after, which two bits hold |
| Slab.VSlab.Free | src/slab.c:423-620 | freeing by address alone tells old blocks from new ones and takes the right step; the slab is released exactly when nothing is in use and goes back to the LRU list exactly when its last old block has gone and something is left |
| SlabSpec.OldAddressIsShadowed | src/slab.c:459-460 | the test dmeta->num_b != 0 at the slot of the first byte recognises every live old block |
| SlabSpec.BlocksDisjoint | src/slab.c:293-332 | two different blocks in use never share a byte, whichever classes they were cut by |
| SlabSpec.RunsAreSafe | src/slab.c:194-620 | in every run of morph, pop, take and free from an empty slab, through any number of morphs, all blocks in use are disjoint at every point |
| SlabSpec.ReopensWithLastOldBlock | src/slab.c:487-507 | a slot becomes available by a free of old block j exactly if j was the only old block left over it |
| LruCounts.TestsAgree | include/nvalloc/internal/slab.h:133-142 | the three floating-point 20% tests, two of them padded against rounding, all mean 5 * taken <= slots |
| LruCounts.Arena.Update | include/nvalloc/internal/slab.h:133-147 | morphing_len moves by the change in the number of low slabs |
| LruCounts.Arena.Pop | src/slab.c:370-379 | popping keeps LRU_len and morphing_len equal to the number of slabs and of slabs at most 20% taken |
| LruCounts.Arena.Free | src/slab.c:578-606 | freeing keeps both counters exact, also when the slab leaves the list |
| LruCounts.Arena.Test | src/slab.c:86-95 | the test of slab_get_one accepts exactly the slabs that count as low |
| LruCounts.Arena.Cut | src/slab.c:248-253 | a re-cut slab leaves the list, and both counters stay exact because it was low |
| LruCounts.Arena.Renew | src/slab.c:194-207 | a slab without live blocks stays on the list as a slab of the new class, and both counters stay exact |
| LruCounts.Arena.Rejoin | src/slab.c:526-541 | a slab that rejoins the list is counted as low exactly if it is |
| LruCounts.MorphingAtMostLru | include/nvalloc/internal/slab.h:146-146 | the assertion morphing_len <= LRU_len always holds |
| SlabLru.CreateSlab | src/slab.c:18-39 | a new slab is on the list, counted with its own records |
| SlabLru.PopSlab | src/slab.c:347-421 | popping keeps the list entry equal to the records of the slab, and touches no other slab |
| SlabLru.FreeSlab | src/slab.c:423-620 | a slab is on the list exactly while no old block is live in it, and its entry is its own count of taken slots; a released slab is off the list |
| SlabLru.MorphSlab | src/slab.c:86-345 | morphing happens exactly for slabs at most 20% taken and keeps list, counters and records in agreement through reset, re-cut and refusal |
| RbOps.RbTree.Search | include/nvalloc/internal/rb.h:387-404 | returns the node with the key, or null exactly if there is none |
| RbTrees.RotateLeftAt | include/nvalloc/internal/rb.h:140-152 | a rotation rewrites two links and no other |
| RbOps.RbTree.WindInsert | include/nvalloc/internal/rb.h:456-469 | the winding loop ends at the place where the key belongs, with a path that leads from the root to it |
| RbOps.RbTree.UnwindInsert | include/nvalloc/internal/rb.h:470-515 | the unwinding loop leaves the heap linked as the tree that the pure insertion computes |
| RbOps.RbTree.Insert | include/nvalloc/internal/rb.h:449-516 | rb_insert keeps search order, left leaning, no two reds in a row and equal black heights, and adds exactly the node, at its place in the order |
| RbTrees.RemoveRoundLeft | include/nvalloc/internal/rb.h:617-713 | a round of the unwinding of remove whose left subtree lost height: all colour cases leave the heap as the pure step says |
| RbTrees.RemoveRoundRight | include/nvalloc/internal/rb.h:714-849 | a round whose right subtree lost height, with all five colour cases |
| RbOps.RbTree.UnwindRemove | include/nvalloc/internal/rb.h:612-853 | the unwinding loop leaves the heap linked as the tree that the pure removal computes |
| RbOps.RbTree.SwapWithSuccessor | include/nvalloc/internal/rb.h:550-578 | exchanging a node with its successor in place leaves the remaining order unchanged |
| RbOps.RbTree.Remove | include/nvalloc/internal/rb.h:517-854 | rb_remove keeps all invariants of the tree and removes exactly the node, whichever of its cases applies |
| RbSpec.OkPlugSplits | include/nvalloc/internal/rb.h:456-515 | a balanced tree splits at every place into a balanced subtree and a context that accepts any subtree of the same black height |
| RbWalks.First | include/nvalloc/internal/rb.h:120-128 | the leftmost walk ends at the first node of the subtree in order, or at nil for the empty one |
| RbWalks.Last | include/nvalloc/internal/rb.h:130-138 | the rightmost walk ends at the last node in order |
| RbWalks.Next | include/nvalloc/internal/rb.h:331-358 | rb_next returns the node right behind the given one in order, or null for the last |
| RbWalks.Prev | include/nvalloc/internal/rb.h:359-386 | rb_prev returns the node right before the given one |
| RbWalks.Nsearch | include/nvalloc/internal/rb.h:405-426 | rb_nsearch returns the node with the least key not below the given key, or null exactly if there is none |
| RbWalks.Psearch | include/nvalloc/internal/rb.h:427-448 | rb_psearch returns the node with the greatest key not above the given key |
| LogSpec.CountIndexRoundTrip | src/log.c:156-162 | count_to_index is a bijection on the naturals |
| LogSpec.TakesHundred | src/log.c:156-171 | of its first 100 counts all fall on slots below 126 and the next one does not, so a chunk takes exactly 100 items |
| LogSpec.SlotsAreDistinct | src/log.c:156-162 | no slot is taken twice |
| LogSpec.ItemAddrRoundTrip | include/nvalloc/internal/log.h:14-17 | ptr2lchunk and ptr2lindex recover chunk and index from the address of every item |
| LogSpec.WordIs | include/nvalloc/internal/log.h:26-31 | an item keeps kind and 48-bit address, and of the size its low 14 bits: the size itself if and only if it is below 16 KiB |
| LogSpec.AppendAlloc | src/log.c:187-220 | an appended allocation or file adds exactly itself to what a replay finds |
| LogSpec.FreedLiveSet | src/log.c:193-218 | an appended Free item removes the item it names from the live set if and only if the version it records is the id of that chunk |
| LogCrash.ReplayIsUnique | src/log.c:361-437 | a persistent image has one chain and so one replay outcome |
| LogCrash.LinkInFlight | src/log.c:177-178 | while the link to a new chunk may or may not have reached memory, replay finds the same live set |
| LogCrash.ItemInFlight | src/log.c:188-218 | while an item word may or may not have reached memory, replay finds the live set with it or without it |
| LogCrash.FlipInFlight | src/log.c:432-433 | while the flip of alt may or may not have reached memory, replay finds the same live set through either log |
| LogState.AppendKeeps | src/log.c:213-220 | setting the bit of an appended item keeps the bitmaps equal to the set of Free items and live items |
| LogState.FreeKeeps | src/log.c:193-220 | clearing the bit of the freed item and setting that of the Free item keeps the same |
| LogState.AddChunkKeeps | src/log.c:39-72 | a zeroed chunk with a new id changes nothing live |
| LogState.DropKeeps | src/log.c:293-326 | chunks without a set bit can leave the tree without changing the live set |
| Log.VLog.VlchunkAlloc | src/log.c:39-72 | the chunk comes from the free list or is carved anew, was not in use, is zeroed and persisted before it is linked, and every chunk carved stays in exactly one of the logs or the free list |
| Log.VLog.OpenChunk | src/log.c:171-185 | a full tail gets a successor; the live set is unchanged at every moment of it, also across a crash |
| Log.VLog.AppendFree | src/log.c:187-220 | stops exactly if the chunk of the freed item is not in the tree; otherwise the live set loses exactly that item |
| Log.VLog.AddLog | src/log.c:164-242 | add_log adds to the live set exactly the item of the given kind and address, its size raised by 1 for a slab and cut to 14 bits, or takes out exactly the item a Free item names; a crash at any moment leaves the live set before or after; items of others stay where they are |
| Log.OpenFull | src/log.c:169-185 | a chunk behind which another one is opened has taken all its 100 items |
| Log.TornItem | src/log.c:189-191 | the three assignments to the fields of an item: nothing is to be seen after the first; a write-back after the second leaves an item of size 0, which is the set after the request if and only if the size is 0 |
| Log.TornFree | src/log.c:189-191 | for a Free item such write-backs leave the live set as it was |
| LogDisk.LogFile.Take | src/log.c:39-72 | the allocator of chunks never hands out a chunk in use, and keeps root, tree and free list a partition of the carved chunks; it fails exactly if the free list is empty and the next chunk would reach the end of the file |
| LogDisk.FlushesOnly | src/log.c:177-220 | a persist of a next pointer, an id, a header or an item copies just that to the persisted image |
| LogGc.AddLogForGc | src/log.c:259-291 | a copied item joins the new log, which nothing of the old log notices at any moment |
| LogArena.LogCreate | src/log.c:99-134 | a new log is durable and empty |
| LogArena.OwnerOfWord | src/log.c:382-424 | the low bit of a logged size is set exactly for slabs, so a copied item is given back to the slab, extent or file that it was written for |
| LogArena.Arena.CopyItem | src/log.c:382-424 | one set bit of the old log: a Free item is skipped, anything else is copied and its owner re-pointed; the two assertions in the loop never fail |
| LogArena.Arena.CopyChain | src/log.c:371-428 | the walk copies exactly the live items of the whole chain |
| LogArena.Arena.FinishGc | src/log.c:429-436 | the flip of alt is the commit point: before it a crash leads to the old log, after it to the new one, with the same live set |
| LogArena.Arena.LogDestroy | src/log.c:136-154 | the chunks of the old log, from the highest address on, and its root join the free list, and nothing else does |
| LogArena.Arena.SlowGc | src/log.c:361-437 | slow_GC keeps the live set at every moment of a crash; afterwards the new log holds exactly the live items and no Free item, its chunks are numbered from 0 on, and every owner names its own copy |
| LogFast.Sweep | src/log.c:293-326 | the loop over the tree unlinks exactly the chunks without a set bit |
| LogFast.FastGc | src/log.c:293-326 | fast_GC always keeps the live set of the index and frees exactly the chunks without a set bit, never the tail; if a replay found the log before, one finds it afterwards if and only if FastSafe held: every empty chunk is linked from the chunk of the log that it remembers, and none is followed by an empty one at a lower address; a crash on the way keeps the live set unless an empty chunk remembers another chunk of the chain |
| LogFast.SafeMeans | src/log.c:305-309 | FastSafe, read off links and remembered addresses, says that every empty chunk remembers its true predecessor and that addresses of adjacent empty chunks rise |
| LogFast.FallingIsNotDurable | src/log.c:305-309 | with true predecessors and falling addresses no walk is a replay of the log afterwards |
| LogFast.StaleIsNotDurable | src/log.c:305-309 | if some empty chunk does not remember its true predecessor, no walk is a replay of the log afterwards |
| LogState.ThreadNotBefore | src/log.c:174-181 | no chunk ever remembers a chunk of the chain further ahead than its predecessor: linking a chunk, perhaps a recycled one, keeps this |
| LogFast.KeptNotBefore | src/log.c:293-326 | and so does fast_GC |
| LogFast.ChainAfterwards | src/log.c:305-309 | the chain that the unlinking produces is the old one without the empty chunks if and only if no two neighbouring empty chunks have falling addresses |
| LogFast.UnlinkNeedsPredecessor | src/log.c:305-309 | one unlinking takes the chunk out of the chain if and only if the chunk remembers its true predecessor |
| LogFast.StalePredecessor | src/log.c:305-309 | after any collection some chunk remembers a predecessor that has gone, because successors are not corrected |
| LogFast.ReuseCutsChain | src/log.c:39-72 | a chunk that is still in the chain when it is allocated again cuts off everything behind it |
| LogFastCases.StaleChunkStays | src/log.c:293-326 | collecting one empty chunk that remembers a chunk outside the chain leaves the chain as it was; when the chunk is allocated again, everything behind it is lost |
| LogFastCases.LoggedExtends | src/log.c:164-185 | add_log never changes which chunk a chunk remembers, and chunks only join at the end |
| LogFastCases.TwoCollectionsLoseChunks | src/log.c:293-326 | the kept chunk behind one that a first collection takes out remembers it still; from the log that this collection leaves, any number of calls of add_log later, a second collection that finds this chunk empty fails, also if the first chunk has been linked again; if it has not, the chunk stays in the chain and its reuse loses the rest |
| LogFastCases.BehindLoops | src/log.c:305-309 | an empty chunk that remembers a chunk behind it: after the unlinking the walk from the root never ends |
| LogFastCases.BehindRecoversNothing | src/log.c:305-309 | so a replay of the file recovers no live set at all |
| LogFastCases.FallingChunkStays | src/log.c:293-326 | of two adjacent empty chunks with falling addresses the second stays in the chain |
| LogFastRuns.StaleRun | src/log.c:164-326 | a run of the program from log_create, 300 entries and 200 exits with a safe fast collection between, to a durable log on which fast_GC is not safe because the chunk to be collected remembers a chunk collected before |
| LogFastRuns.StaleRunFails | src/log.c:293-326 | the collection then leaves a file from which a replay recovers nothing, though a hundred extents are live |
| LogFastRuns.FallingRun | src/log.c:164-326 | a run to a durable log on which every chunk to be collected remembers its predecessor and fast_GC is unsafe all the same, because the free list has handed chunks out at falling addresses |
| LogFastRuns.FallingRunFails | src/log.c:293-326 | after the collection no walk along the file is the log |
| LogTimers.EndAdd | src/log.c:222-239 | the end of add_log for a Free item by its own counters: which collection follows, that nothing happens before the 10000th Free item, that the division fails exactly if num_of_items is 0 then, and what fast_GC does to the counters (num_of_items wraps around below zero) |
| LogChurns.ChurnRun | src/log.c:164-326 | a program that keeps a hundred extents and enters and frees two hundred others again and again: by the counters of the code fast_GC runs after every ten thousand exits; the first time it is safe, the second time it is not, and no walk along the file is the log afterwards |
| LogRuns.Register | src/log.c:164-242 | entering an object in the log is atomic under crashes, adds the item with its address and size, and its owner (slab, extent or file) keeps the address of its item |
| LogRuns.Release | src/log.c:164-242 | freeing through the owner takes exactly its item out, atomically |
| LogRuns.Collect | src/log.c:222-239 | the collection at the end of add_log, of either kind and for fast_GC whether safe or not, keeps the live set and every owner finds its item; a log that a replay found is found afterwards, with every crash on the way harmless, unless fast_GC ran where FastSafe did not hold, and then no walk is the log |
| LogRuns.ServeOne | src/log.c:164-242 | one entry or exit, with its collection, makes the live set exactly what the reference says; a crash during it leaves the live set before or after |
| LogRuns.Serve | src/log.c:164-437 | any run of entries and exits with collections of either kind passes through exactly the live sets of the reference, request by request; a crash during a request leaves the live set before or after that request; the run ends early only if the log file is full, a field width is reached, or a fast collection is due that is not safe; otherwise the state is valid at the end |
| LogRuns.ServeFast | src/log.c:164-326 | any run of entries, exits and fast collections, safe or not, keeps the log right in memory: the live sets are those of the reference, every owner finds its item, no Free item misses the tree, a chunk that is not the tail has taken its 100 items, and root, tree and free list partition the chunks of the file; only a full file or a field width ends it early |
| PairingHeap.MergeTrees | include/nvalloc/internal/ph.h:51-81 | phn_merge makes the greater root the first child of the other and touches no other node |
| PairingHeap.PairSiblings | include/nvalloc/internal/ph.h:83-119 | the first pass pairs neighbouring siblings into a queue |
| PairingHeap.MergeQueue | include/nvalloc/internal/ph.h:120-166 | the queue of trees is merged two at a time until one is left; it terminates, with the tree that repeated pairing yields |
| PairingHeap.MergeList | include/nvalloc/internal/ph.h:83-168 | ph_merge_siblings turns a list of siblings into one tree |
| PhSpec.MergeSiblingsOk | include/nvalloc/internal/ph.h:83-168 | repeated pairing loses and invents no node and keeps heap order |
| PhSpec.RootIsLowest | include/nvalloc/internal/ph.h:220-228 | the root of an ordered tree is a lowest node |
| PhSpec.RemovedOk | include/nvalloc/internal/ph.h:310-389 | replacing a node by the merge of its children removes exactly that node and keeps heap order |
| PairingHeap.Heap.MergeAuxList | include/nvalloc/internal/ph.h:170-181 | the lazily collected roots become one tree together with the old root, with all links well formed |
| PairingHeap.Heap.First | include/nvalloc/internal/ph.h:220-227 | returns a node with the lowest key and keeps the contents |
| PairingHeap.Heap.Insert | include/nvalloc/internal/ph.h:239-265 | adds exactly the node |
| PairingHeap.Heap.RemoveFirst | include/nvalloc/internal/ph.h:266-281 | removes exactly one node, a lowest one |
| PairingHeap.Heap.RemoveAny | include/nvalloc/internal/ph.h:282-308 | removes exactly one node of the heap, or returns null exactly if it is empty |
| PairingHeapRemove.Remove | include/nvalloc/internal/ph.h:309-389 | removes exactly the given node, wherever it stands: root, auxiliary list, first or later child, with or without children |
| PageClasses.FloorIsFloor | src/extent.c:27-32 | get_psizeclass_floor rounds down to the greatest class not above the size, also at the end of the table |
| PageClasses.LookupIsCeiling | include/nvalloc/internal/sizeclass.h:218-223 | get_psizeclass is the least class that holds the pages |
| PageClasses.ClassesAreTable | include/nvalloc/internal/sizeclass.h:70-147 | the pages of all 62 page classes |
| PageClasses.FloorFits | src/extent.c:249-281 | any extent filed at or above the class looked up for a request is large enough for it |
| PageClasses.FitsFloor | src/extent.c:249-281 | any extent at least as large as the class looked up is filed at or above it |
| ExtentSets.ExtentSet.Insert | src/extent.c:681-707 | keeps bitmap, heaps, list and page count coherent and appends exactly the extent |
| ExtentSets.ExtentSet.Remove | src/extent.c:299-325 | keeps them coherent, although the bit of an emptied heap is flipped, and removes exactly the extent, leaving the others in order |
| ExtentSets.ExtentSet.BestFit | src/extent.c:249-281 | returns an extent that is large enough and lowest in the first adequate class that has any; refuses only if every extent of at least the class looked up is more than 32 times too large and coalescing is delayed |
| PageMapSpec.EntryMeans | src/extent.c:1019-1036 | what an entry shows: nothing, an extent that is no slab with this page as an end, or the vslab of the slab in use that covers the page |
| PageMapSpec.PastIsNext | src/extent.c:1132-1136 | an extent shown just past another one begins right there |
| PageMapSpec.BeforeIsPrev | src/extent.c:1155-1158 | an extent shown just before another one ends right there |
| PageMapSpec.SplitKeeps | src/extent.c:533-604 | after a split extents stay disjoint, the same pages are covered, and the map agrees |
| PageMapSpec.MergeKeeps | src/extent.c:1058-1099 | after a merge the same holds |
| PageMaps.PageMap.RegisterInterior | src/extent.c:763-795 | every page of a slab shows its vslab and no other entry changes |
| PageMaps.PageMap.DeregisterInterior | src/extent.c:831-978 | only the ends of the slab show anything: the extent, with the slab bit still set |
| PageMaps.PageMap.Register | src/extent.c:851-889 | registering an extent over uncovered pages keeps map and extents in agreement |
| PageMaps.PageMap.Deregister | src/extent.c:157-177 | deregistering leaves the map in agreement if and only if the extent was no slab; its only caller passes evicted extents, which are none |
| PageMaps.PageMap.Split | src/extent.c:533-604 | cuts the extent, gives the two parts their classes and writes exactly the entries of their ends, in agreement |
| PageMaps.PageMap.Merge | src/extent.c:1058-1099 | clears the inner entries and no other, joins the extents without a class, in agreement, losing no page |
| PageMaps.PageMap.EndSlab | src/extent.c:1203-1208 | a freed slab shows as an extent again, with the slab bit on both its end pages, and no other entry changes |
| PageMaps.PageMap.StartSlab | src/extent.c:818-823 | an extent taken for a slab shows its vslab on every page, and no other entry changes |
| Coalescing.Coalesce | src/extent.c:1101-1121 | the neighbour leaves the set, the others keep their order, and the two become one extent; set and map stay consistent and nobody else is touched |
| Coalescing.TrySide | src/extent.c:1132-1176 | one half of the loop merges exactly if the neighbouring page shows an extent of the same arena in the state of the set |
| Coalescing.TryCoalesce | src/extent.c:1122-1183 | terminates with the size of the set as measure; extents, map, list and page count are those of merging forward and backward in turn; if it reports no merge, no neighbouring page shows an extent that could be merged |
| Coalescing.Record | src/extent.c:1194-1235 | after a free no neighbouring page shows a mergeable extent whose slab bit is clear; set and map agree, no page is lost, extents outside the set are untouched, and the freed pages are part of the last extent of the list |
| Coalescing.SlabBitHides | src/extent.c:994-998 | a look for inactive extents finds the adjacent extent of the same set exactly if the slab bit of its page is clear |
| Coalescing.FreedSlabStaysApart | src/extent.c:1203-1232 | two adjacent dirty extents that delayed coalescing leaves apart because one has been a slab |
| Coalescing.TryDelayedCoalesce | src/extent.c:334-350 | takes the extent out of the set; either nothing can be merged with it and it stays out, or one neighbour leaves the list too and the merged extent stands last, the others in their order |
| Coalescing.EvictDirty | src/extent.c:379-481 | the dirty loop terminates, with the outcome of the reference that always takes the head of the list; it returns null only if the list is empty or the page count is at most the minimum, otherwise an extent that cannot be merged any more: the head if that cannot be merged at the start, and always the head if the set loses one extent only |
| Coalescing.OldestFirst | src/extent.c:386-404 | if the page count is above the minimum and the oldest extent has no neighbour to merge with, exactly that one leaves the set |
| Coalescing.Recycle | src/extent.c:496-824 | the best fit is cut to the size asked for and gets the class asked for; the surplus becomes the last extent of the set; a slab shows its vslab on every page; an extent that is to be no slab shows a clear slab bit on its first page, on its last one if it was cut off, and the entry of the last page stays if it was taken whole; a refusal changes nothing |
| Coalescing.RecycledShows | src/extent.c:637-669 | what the two ends of an extent show that is taken and is to be no slab |
| CoalesceProtocol.StepKeeps | src/extent.c:988-1183 | every single step of every thread keeps ownership, lock and page-map invariants, and no page is lost or gained |
| CoalesceProtocol.RunKeeps | src/extent.c:988-1183 | so does every interleaved run |
| CoalesceProtocol.StartsWell | src/extent.c:851-889 | a quiet system whose map agrees with its extents satisfies the invariant |
| CoalesceProtocol.EachHasOneOwner | src/extent.c:485-494 | an extent is in use exactly if it has an owner, and two threads never work on the same extent |
| CoalesceProtocol.MergesItsOwn | src/extent.c:1058-1121 | although the set mutex is dropped, only two adjacent extents in use, both owned by the merging thread and locked by nobody else, are merged |
| CoalesceProtocol.FoundTouches | src/extent.c:987-1036 | after the second read under the lock the extent exists, ends next to the own extent, and nobody is changing it: no lookup returns an extent that was merged away |
| CoalesceRace.SecondReadNeeded | src/extent.c:1000-1014 | without the second read the thread could lock an extent that has been merged away meanwhile: a run of the other thread that leads there |
| CoalesceRace.RacingHappens | src/extent.c:1000-1014 | a run of two threads from a quiet start to such a race |
| CoalesceRace.LocksWhatIsGone | src/extent.c:1000-1014 | a run from a quiet start after which a thread holds the lock of an extent that does not exist any more, before its second read |
| CoalesceProtocol.AgreesWhenQuiet | src/extent.c:109-119 | whenever nobody is in the middle of its writes, every extent shows at its two ends and no other page shows anything |
| CoalesceProtocol.HolderMoves | include/nvalloc/internal/mutex_pool.h:48-64 | a thread that holds the lock of an extent waits only for higher locks of the pool, so some holder can go on |
| CoalesceProtocol.NoDeadlock | src/extent.c:1101-1183 | as long as a thread is busy, some busy thread can take a step |
| CoalesceAlone.FreeMerges | src/extent.c:1101-1235 | when no other thread holds a lock, a thread that frees an extent next to one of the set, on either side, can merge the two into one extent of the set, with exactly the entries, owners and structures that leaves |
| CoalesceAlone.AllocationSplits | src/extent.c:496-824 | when no other thread holds a lock, a thread can take any number of pages from the front of any larger extent of a set; the rest stands in the set as an extent of its own |
| LeafWords.PackReadsExactly | include/nvalloc/internal/rtree.h:183-314 | a packed word gives back extent, size class and slab bit if and only if the pointer is even and canonical and the class fits 16 bits |
| LeafWords.WriteIsUpdate | include/nvalloc/internal/rtree.h:258-336 | each writer sets its field and no other |
| LeafWords.WritesReadBack | include/nvalloc/internal/rtree.h:258-336 | any sequence of field writes reads back the last value of each field |
| Rtrees.SubkeysArePage | include/nvalloc/internal/rtree.h:151-161 | the two subkeys tell exactly the 2^36 pages apart |
| Rtrees.LeafKeyDecides | include/nvalloc/internal/rtree.h:130-148 | keys with the same leafkey share slot and leaf, and no leafkey equals the invalid one |
| Rtrees.CacheStays | src/rtree.c:152-178 | leaves that other threads add invalidate no cached line |
| Rtrees.HitKeeps | include/nvalloc/internal/rtree.h:362-391 | a hit in L2 keeps the cache right and every valid leafkey unique across L1 and L2 |
| Rtrees.MissKeeps | src/rtree.c:316-340 | so does replacement after a miss |
| Rtrees.Rtree.LeafInit | src/rtree.c:152-178 | a missing leaf is created empty, an existing one is kept |
| Rtrees.Rtree.LookupHard | src/rtree.c:262-359 | after a miss in both levels the walk and the replacement keep the cache right |
| Rtrees.Rtree.Lookup | include/nvalloc/internal/rtree.h:338-404 | the cached lookup returns the same element as the uncached walk of the tree |
| Rtrees.Rtree.Read | include/nvalloc/internal/rtree.h:426-451 | reads the word of the page; a missing leaf reads as the empty word |
| Rtrees.Rtree.Write | include/nvalloc/internal/rtree.h:406-425 | changes the word of exactly one page, for all 2^36 pages |
| Rtrees.Serve | include/nvalloc/internal/rtree.h:338-449 | any number of threads with a cache each, over any history of reads and writes, get the answers of one map from pages to words |
| Smoothsteps.TableIsPolynomial | include/nvalloc/internal/smoothstep.h:26-231 | each of the 200 weights of the table is the integer part of 2^24 times 6x^5 - 15x^4 + 10x^3 at x = i / 200 |
| Smoothsteps.HSymmetric | include/nvalloc/internal/smoothstep.h:26-231 | weights that lie opposite add up to 2^24, or 1 less for the rounding |
| Smoothsteps.HBounds | include/nvalloc/internal/smoothstep.h:26-231 | the weights lie between 0 and 1 |
| Smoothsteps.HRises | include/nvalloc/internal/smoothstep.h:26-231 | and they rise |
| Decays.StepsAre | src/arena.c:561-585 | n updates with nothing before the last, for n below 200 and for all larger n |
| Decays.StepsCompose | src/arena.c:561-585 | updates compose |
| Decays.AdvancesCompose | src/arena.c:588-604 | two advances move the epoch as far as the second alone would |
| Decays.LimitBounds | src/arena.c:612-628 | the purge limit never exceeds the sum of the backlog |
| Decays.LimitFalls | src/arena.c:561-628 | over n intervals the limit rises by no more than the pages that came in; if none came in it does not rise |
| Decays.DecaysToNothing | src/arena.c:561-628 | after 200 intervals without new pages the limit is 0 |
| Decays.Decay.BacklogUpdate | src/arena.c:554-585 | one update by n equals n updates by 1 with zero deltas before the last, which is what the current pages exceed nunpurged by |
| Decays.Decay.BacklogLimit | src/arena.c:612-628 | the 64-bit sum gives the exact limit if and only if the weighted sum is below 2^64, as it is for a backlog of less than 2^40 pages |
| Decays.Decay.EpochAdvance | src/arena.c:587-650 | afterwards epoch <= time < epoch + interval <= deadline, the deadline is the given jitter further on, the backlog has advanced by the intervals that passed and its last entry is what the current pages exceed the old nunpurged by, and nunpurged is the greater of limit and current pages |

## Left out

- Slab.VSlab.Morph: step 1 (src/slab.c:127-192) is not modelled, because it looks into the cache of the new class instead of the old one; no slot of the slab is in a thread cache when it starts. The is_mixed counter and slab->sc_b, which only a recovery would read, are not modelled either.
- Slab.VSlab.Pop: thread caches are the set of cached slots; the order in which a cache gives slots out is not modelled, nor is the position of slabs in bin lists and in the LRU list.
- Slab.VSlab.Free: slab operations are sequential, since the locks of slab and LRU list are taken in both orders.
- Bitmap.FirstFree: a bitmap is the array of its bits in groups of 64; the tricks on single words (x & -x) are the search for the lowest bit.
- LruCounts.TestsAgree: the tests are over the reals; the rounding of doubles, which the padding absorbs, is not modelled.
- RbOps.RbTree.Insert: the tree holds fewer than 2^63 nodes, which is what the path array of 128 entries is sized for; the colour bit packed into the right pointer is a field of its own; iteration with callbacks is not modelled.
- LogRuns.Collect: the runs of LogRuns and LogFastRuns collect at will after any Free item; the counters that decide it are in LogTimers, and LogChurns.ChurnRun follows them. slow_GC is followed only on a log that a replay finds, because it walks the chain.
- LogRuns.Serve: a run is followed up to the first fast collection that is not safe; LogRuns.ServeFast goes on in memory.
- LogTimers.EndAdd: gc_timer of the log that slow_GC makes is any number, since the code does not set it.
- LogFastRuns.FallingRunFails: that the live set is lost only when the chunk left in the chain is allocated again is LogFastCases.FallingChunkStays with LogFast.ReuseCutsChain, not part of the run.
- Log.VLog.AddLog: ids stay below 2^14, the width of the id field; sizes are cut to 14 bits as in the code; the stores to the fields of one 8-byte item are one store of a word, and Log.TornItem says what a write-back between them would leave; the mini log and the write-ahead file are not modelled.
- LogDisk.LogFile.Take: log_file_used is one number of the file instead of one copied from log to log; mapping and growing the file are not modelled, a full file stops the program.
- LogArena.Arena.SlowGc: the freed volatile objects of the old log are dropped; the copied item's owner is found by kind and address.
- PairingHeap.MergeTrees: the NULL cases of phn_merge, which no caller uses, are not modelled.
- ExtentSets.ExtentSet.BestFit: the heaps of a set are sets of extents and their first is a lowest one, as proved of the pairing heap; the build option for best fit, which the headers set, is chosen; the real table of 62 page classes is used.
- PageMaps.PageMap.Register: the page map is a map from pages to entries, which show extent or vslab and the slab bit; the size class index in an entry is not modelled, only that of the extent; new pages are uncovered because the operating system hands out fresh ranges.
- Coalescing.EvictDirty: the branch for muzzy extents is not modelled: the start it computes is one chunk too far, and its own assertion on the size does not follow.
- Coalescing.Record: covered runs of pages are no longer than the largest page class, as memory arrives in 512-page chunks; the vslab of a slab in use, which a look without the slab-bit test would take for an extent, is never coalesced; the assignment inside an assertion (src/extent.c:1205) is read as a comparison.
- CoalesceProtocol.StepKeeps: slabs and their interior entries, registration of new memory and removal of memory are not part of the protocol; reads and writes of map entries are atomic and in program order. The order in which a thread looks at its neighbours is open, so the state machine has more runs than the code.
- CoalesceProtocol.NoDeadlock: waiting for locks is modelled, fairness is not: it says that some thread can go on, not that each does.
- Rtrees.Rtree.Lookup: a height of 2 for 48-bit addresses and 4096-byte pages; memory order of the atomics, the initialisation lock and allocation failure are not modelled.
- Rtrees.Rtree.Write: the assertion of rtree_write that the element was empty is not required.
- LeafWords.WritesReadBack: the variant for aarch64 and the leaf without packed words are not modelled.
- Decays.Decay.EpochAdvance: clock, jitter and page counts are parameters; times do not overflow; the purge itself is Coalescing.EvictDirty.
- Configuration, files, mmap and persistence calls (a persist is a copy from the volatile to the persisted image), statistics, doubly linked lists, ring lists, tickers and thread-specific data are not modelled.
