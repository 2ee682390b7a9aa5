# A verified model of the mimalloc port's allocation engine

This project models, in Dafny, how the allocator hands out and takes back
memory, and proves what it exists for: live blocks never overlap, every pointer
leads back to its own block, zeroed memory is zero, and pages, heaps and slices
are given back once and only when nobody uses them. `dafny verify
dfyconfig.toml` checks all of it.

The model has four parts.

- **A page and its ownership.** `PageProtocol` is a step machine of one page
  from carve to release, over any number of threads, one step per atomic
  operation; `PageConservation`, `PageOwnership`, `PageZero` and
  `PageTermination` are its invariants and `PageTheorems` what they mean over
  every run. `PageAlone` says where each operation ends when nobody comes in
  between, `PageLost` exactly when a page is lost; `FreshZero` ties the page's
  start to the arena's clean runs, and `StaleRest` says when a whole block is
  zero. `PageLists` holds the page header as a class, its three lists threaded
  through an array of link words; each method is proved against the list
  operation of the machine, and `PageRefinement` shows that the machine, left
  alone, does what the methods do.
- **Bitmaps and arenas.** `Bits`, `Chunk` and `Bitmap` are the word arrays with
  their loops, scans, rollbacks and summary; `Arena` keeps four of them in
  agreement, with an account of the bytes that may be non-zero and of the slices
  with memory behind them, whatever commit the system refuses. `ArenaState` has
  the values behind it, `RefusedCommit` runs with a refusal, and `ArenaAnswers`
  shows that an arena serves a thread heap as that one supposes. `BitmapClaims`
  and `Chunkmap` are the same code as interleaved word operations of many
  threads, and say what an operation left alone does (`ChunkmapAlone`).
- **Addresses and sizes.** `PageMap` is the two-level table against a flat map,
  `SizeClasses` the bin formula and its table, `FreeList` the encoded links, and
  `Dispatch` the one-word test of `free`, block recovery and aligned allocation;
  it ends in a theorem about every reachable state of the page machine.
- **Heaps.** `PageQueue` is the intrusive queue. `HeapState` and `ThreadHeap`
  are a thread's heap on one address space: bin queues, direct cache, retired
  pages, page map, free slices and the pointers the program holds. What every
  operation keeps is `HeapState.Inv`; that held pointers never overlap follows
  from it. `HeapLifetime` is the reference count of shared heaps at reusable
  addresses, with `HeapAlone` for where deletion and thread exit end;
  `TheapRegistry` is the per-thread list searched by address.

Words are numbers below 2^64 with wrapping written out. What comes from outside
(the arenas' answers, memory for tables and headers, which abandoned page is
claimed, the clock) is a parameter.

Where the code falls short of what its comments promise, or of the general
rule, the exact condition is proved:

- `encode` maps one address per key pair to the null link, so a list with that
  block behind its head is cut (`FreeList.ReadsBack`, `LostBlockExample`).
- `chunkmap_clear_if_empty` re-checks the chunk so that a concurrent set is not
  hidden; the rollback of a claim of several fields sets bits too, but never
  the summary. Every such claim can leave a non-empty chunk hidden, and no claim
  of one field can (`Chunkmap.SafeIffOneField`).
- `alloc_zeroed` clears just the bytes asked for up to 4096, so the rest of the
  block, which the caller may use, is zero in general only above that or when
  there is no rest (`StaleRest.WholeBlockZeroedIff`).
- `set_unowned` lets go of a page without looking at its stack. If the page was
  full and every block left live was freed before that step, nobody finds it
  again: exactly then it is lost (`PageLost.LosesIff`, `LostPage`).
- `register` is described as all or nothing; on failure it clears the entries
  it wrote, so it restores the map only if they were unmapped before
  (`PageMap.Register`, `PageMap.FailureForgets`).
- Three words are served from blocks of four, one third more, above the
  one-quarter bound that holds for all other sizes
  (`SizeClasses.WasteUnderAQuarter`).
- `good_size`, and the rounding of huge requests, wrap for the last 64 KiB of
  the size range (`GoodSizeIdempotent`, `HugeFits`).
- `run_purge` takes what is scheduled to be committed, but `alloc_slices` gives a
  run whose commit is refused back by `free_slices`, which schedules it. What is
  scheduled is then still committed iff the delay is zero or negative or the
  arena pinned (`Arena.Arena.AllocSlices`, `RefusedCommit.ScheduledUncommitted`).
  A purge empties the schedule and so mends this; it clears the commit bits of a
  run all or none, however, so a run committed in part keeps bits of slices
  without memory, which reuse does not commit again. That happens exactly for
  such runs (`Arena.Arena.MaybePurge`, `RefusedCommit.StaleCommitBit`).

## Model

| member | source | states |
|---|---|---|
| PageTheorems.BlocksConserved | src/page.rs:231-371 | In every reachable state of any number of threads, every threaded block is in exactly one of: `free`, `local_free`, the foreign stack, a captured chain, an in-flight push, the program; no other block is anywhere; `used` is exactly live + queued + carried |
| PageTheorems.NeverHandedOutTwice | src/page.rs:568-580 | The block an allocation pops is below `reserved`, is with nobody else and on no other list, and becomes live once |
| PageTheorems.TokenIffOneHolder | src/page.rs:485-505 | Until release, the ownership bit is set iff exactly one thread acts as holder, and clear iff none does |
| PageTheorems.StampIsHolder | src/page.rs:386-401 | A thread id stamped in `xthread_id` names the only holder; the thread whose queue has the page is the one stamped |
| PageTheorems.LocalFreeIsOwners | src/heap.rs:928-970 | A free dispatched on the stamp takes the owner path iff the page is in the caller's own queue, whatever the other threads are doing |
| PageTheorems.ReleaseIsFinal | src/heap.rs:1150-1176 | The slices go back at most once; then nothing is live, queued or in flight, the registry has no entry, and no action of any thread is enabled any more |
| PageTheorems.OnlyHolderReleases | src/heap.rs:1207-1290 | Only the one holder gives the slices back, and only with no block in use (that it then does is `PageAlone`) |
| PageAlone.FreedAlone | src/heap.rs:1207-1254 | From any reachable state, a foreign free run alone to its end: on an owned page the block joins the stack and nothing else changes; an unowned page is claimed and then released and unregistered iff nobody else has a block of it, else left unowned, drained, and registered if it can serve a block |
| PageAlone.LastFreeReleases | src/heap.rs:1224-1233 | Freeing the last block of an unowned page, run alone, gives the slices back and unregisters the page |
| PageAlone.FreeLeavesReclaimable | src/heap.rs:1235-1253 | A free that leaves another block live, run alone, leaves the page unowned, drained, stamped as mapped and registered |
| PageAlone.HandedOverAlone | src/heap.rs:1265-1289 | A hand-over run alone: released iff nobody has a block; else unowned and drained, stamped as mapped and registered iff it can serve a block, as full otherwise |
| PageAlone.AnyoneMayReclaim | src/heap.rs:337-356 | Any thread may reclaim an unowned page that is stamped as mapped and whose registration found memory |
| PageAlone.ReclaimedAlone | src/heap.rs:337-356 | A reclaim run alone ends with the page in the thread's queue, stamped, unregistered and drained, and not known zero |
| PageLost.LostIff | src/page.rs:728-746 | No action of any thread is enabled on a page not given back iff it is unowned, unregistered and nobody has a block of it; the blocks still counted as used are then all on its stack |
| PageLost.LostByLettingGo | src/page.rs:719-746 | Any step loses a page iff it lets go of it, unregistered, while nobody has a block of it |
| PageLost.LosesIff | src/heap.rs:1278-1281 | With memory for the registry: iff it is the `set_unowned` of a page stamped as full whose last blocks were all freed before it; `try_unown` never does it |
| PageLost.LostPage | src/page.rs:728-746 | For every block size, a run of two threads after which a page is lost with its one block on its stack |
| PageTheorems.UnownedRegistryAgrees | src/heap.rs:1236-1250 | While the page is unowned its registry bit is set iff it is stamped abandoned-mapped, given the registry had memory |
| PageTheorems.RegisteredOnce | src/arena.rs:288-295 | A page about to be registered is not registered |
| PageTheorems.OnlyHolderTouchesRegistry | src/heap.rs:1184-1194 | Registry bit and stamp change only by an action of the one holder |
| PageTheorems.ZeroedIsZero | src/heap.rs:387-399 | Over every run of writes, frees, collects and reclaims: a zeroed allocation returns as many zero bytes as asked for, whether it clears them or trusts the page's zero state; above 4096 bytes the whole block is zero; up to 4096 the bytes past the request are exactly as they were |
| StaleRest.WholeBlockZeroedIff | src/heap.rs:387-399 | The whole block is zero in every reachable state iff the request is above 4096 bytes or takes all of its block |
| StaleRest.StaleByte | src/page.rs:588-597 | For every block size and offset, a run after which a served block still holds its last user's byte there |
| PageTheorems.InteriorStaysFlagged | src/page.rs:386-401 | From the making of an interior pointer to the free of its block the page carries the flag, and no restamp loses it |
| FreshZero.CleanPageStartsZero | src/arena.rs:391-402 | A page made of a run without non-zero bytes has no non-zero byte in any block, first words included: the start the page machine supposes |
| FreshZero.ZeroedFromArena | src/heap.rs:387-399 | From what the arena says of the run, through any run of all threads, to a zeroed allocation: the bytes asked for are zero, and above the limit the whole block |
| FreshZero.HugeZeroed | src/page.rs:607-623 | A huge block on a clean run is left alone and is zero throughout because the run is; on any other run it is cleared |
| FreshZero.CarvePage | src/arena.rs:391-402 | With the arena in any state its operations can bring it to, a page made of the run it hands out starts as the page machine supposes, and known zero iff the arena began zeroed and the run has no dirty bit: no further hypothesis on what was written, freed or purged before |
| PageConservation.ConservedStep | src/page.rs:231-371 | Every step of every thread keeps block conservation |
| PageOwnership.OwnStep | src/page.rs:694-746 | Every step keeps token, stamp, registry and the threads' own view of who holds the page in agreement |
| PageZero.ZeroStep | src/page.rs:607-629 | On a page in or on its way out of a thread's queue, the known-zero flag means that every block on `free` or not yet threaded is zero past its link word |
| PageTermination.MtNeverStuck | src/heap.rs:1207-1254 | The claimer of an abandoned page can always take its next action |
| PageTermination.NoAllocWhileClaimed | src/heap.rs:1207-1254 | While it holds the page nobody allocates from, extends, reclaims or owner-frees into it |
| PageTermination.AnyStep | src/page.rs:719-725 | No step of any thread raises the claimer's rank; each of its own lowers it, and each failure to let go lowers the blocks still expected |
| PageTermination.MtTerminates | src/heap.rs:1207-1254 | In any interleaving the claimer takes at most `Rank` actions and goes round again at most as often as there were blocks in use |
| PageTermination.RankAtClaim | src/heap.rs:1207-1254 | That rank is linear in the number of blocks in use at the claim |
| PageRefinement.SpliceAlone | src/page.rs:262-322 | The machine's splice steps, run alone, reverse the captured chain onto `free` and lower `used` by its length |
| PageRefinement.CollectAlone | src/page.rs:262-322 | The machine's collect, run alone, has the effect on lists and zero state that the method `Page.Collect` is proved to have |
| PageLists.Page.constructor | src/page.rs:108-153 | A fresh page is owned and empty |
| PageLists.Page.ExtendFree | src/page.rs:231-254 | The blocks threaded through the link words are the next batch, lowest first; no list is damaged |
| PageLists.Batch | src/page.rs:237 | A batch is as many blocks as 4096 bytes hold, and at least one |
| PageLists.Page.Collect | src/page.rs:262-322 | The walked and spliced link words represent `local_free`, the reversed stack, then the old `free`; `used` drops by the stack; known-zero is lost iff a block was recycled |
| PageLists.Page.TakePartly | src/page.rs:335-371 | Everything queued below the pushed block moves, that block stays the whole stack, and `free` is refilled if it was empty |
| PageLists.Page.CollectPartly | src/page.rs:335-371 | It becomes a whole collect exactly when the pushed block is the last in use, and exactly then gives up the zero state |
| PageLists.Page.PopHead | src/page.rs:568-580 | Pops the first block of the list the link words represent |
| PageLists.Page.Alloc | src/page.rs:537-562 | Pop, else collect and pop, else extend and pop; NULL only if all three leave `free` empty; the zero state is given up iff a block was recycled |
| PageLists.Page.FreeLocal | src/page.rs:588-597 | The block joins `local_free` without damage to the other lists |
| PageLists.Page.ThreadFreePush | src/page.rs:485-505 | The block joins the stack, the page is owned afterwards, and the pusher has claimed it iff it was unowned |
| PageLists.Page.IsFull | src/page.rs:809-819 | Full iff nothing is left to serve after a collect that is made, with its effect on the zero state, only when `free` is empty |
| PageLists.Page.ClaimOwnership | src/page.rs:694-709 | Claims exactly an unowned page |
| PageLists.Page.TryUnown | src/page.rs:719-725 | Lets go exactly when the stack is empty |
| PageLists.FailsIffAllLive | src/page.rs:537-562 | An allocation fails iff every block the page can ever hold is live |
| PageLists.CollectedWellFormed | src/page.rs:262-322 | A whole collect neither loses nor duplicates a block and keeps `used` exact |
| PageLists.PartlyWellFormed | src/page.rs:335-371 | Nor does a partial one |
| PageLists.GrownWellFormed | src/page.rs:231-254 | Nor does an extension |
| Words.RotrUndoesRotl | src/bits.rs:190-200 | Rotating back undoes rotating, for every word and amount |
| FreeList.CodeIsZero | src/free_list.rs:64-70 | Exactly one address per key pair encodes to the null link |
| FreeList.DecodeUndoesEncode | src/free_list.rs:64-81 | Decoding gives back the link iff it is null or not that address |
| FreeList.EncodeInjective | src/free_list.rs:64-70 | Different non-null addresses have different codes |
| FreeList.ReadsBack | src/free_list.rs:30-58 | A list built link by link reads back as built, and ends there however far one walks, iff that address is not behind its head; otherwise it reads back cut there |
| FreeList.LostBlockExample | src/free_list.rs:64-81 | Keys and a three-block list that reads back as one block |
| Bits.TestRange | src/bitmap.rs:38-50 | The mask tests of a word say exactly whether all, or none, of the bits of a run are set |
| Bits.RunHasOnes | src/bitmap.rs:84-117 | A run of n set bits needs n ones, so the popcount reject hides no run |
| Chunk.SetMask | src/bitmap.rs:52-64 | Sets exactly the run and tells whether it changed anything |
| Chunk.TryClearMask | src/bitmap.rs:68-80 | Clears exactly the run if all of it is set, else nothing |
| Chunk.FindAndClearRun | src/bitmap.rs:84-117 | Finds the lowest run of n ones within a word iff there is one, and clears exactly it |
| Chunk.IsSetN | src/bitmap.rs:154-158 | True iff the whole run, across words, is set |
| Chunk.IsClearN | src/bitmap.rs:159-164 | True iff the whole run is clear |
| Chunk.SetN | src/bitmap.rs:188-199 | Sets exactly the run, across words |
| Chunk.RollBack | src/bitmap.rs:213-248 | Putting back the words claimed so far restores the array bit for bit |
| Chunk.TryClearN | src/bitmap.rs:213-248 | Clears exactly the run iff all of it is set; a failure part-way leaves every word as it was |
| Chunk.FindSpanning | src/bitmap.rs:282-296 | The scan over word borders finds the lowest run iff the chunk has one |
| Chunk.FindAndClearN | src/bitmap.rs:252-279 | For 1 <= n <= 512 finds a run iff the chunk has one and clears exactly it: for n within a word the lowest run inside the first field that has one, and only without such the lowest across fields |
| Chunk.IsAllClear | src/bitmap.rs:299-301 | True iff no bit of the chunk is set |
| Bitmap.Bitmap.constructor | src/bitmap.rs:330-335 | An all-clear bitmap with an exact summary |
| Bitmap.Bitmap.ChunkmapSet | src/bitmap.rs:354-357 | Restores the exact summary after bits were set |
| Bitmap.Bitmap.ChunkmapClearIfEmpty | src/bitmap.rs:361-371 | The summary bit ends up set iff the chunk is non-empty; the others are untouched |
| Bitmap.Bitmap.SetBits | src/bitmap.rs:390-397 | Sets exactly the run, tells whether it was clear, keeps the summary exact |
| Bitmap.Bitmap.UnsafeSetN | src/bitmap.rs:403-417 | The same for a run over many chunks |
| Bitmap.Bitmap.ClearBits | src/bitmap.rs:421-432 | All or nothing, and the summary stays exact |
| Bitmap.Bitmap.AreSet | src/bitmap.rs:435-441 | True iff the run lies within one chunk and is set |
| Bitmap.Bitmap.AreClear | src/bitmap.rs:444-450 | True iff the run lies within one chunk and is clear |
| Bitmap.Bitmap.TryChunk | src/bitmap.rs:460-483 | Takes a run of the chunk iff it has one |
| Bitmap.Bitmap.TryFindAndClearN | src/bitmap.rs:460-483 | For every start hint: Some iff some single chunk has n contiguous set bits, and then exactly such a run is cleared: the best of the first chunk, going round from the hint, that has one; neither summary skips nor rotation hide a run |
| Bitmap.Bitmap.RangeIsSet | src/bitmap.rs:535-548 | True iff the whole range, across chunks, is set |
| Bitmap.Bitmap.RangeTryClear | src/bitmap.rs:551-588 | Clears a range across chunks all or nothing, with rollback, and keeps the summary exact |
| Bitmap.Bitmap.TryFindAndClearHuge | src/bitmap.rs:519-532 | Takes the first run of more than 512 bits iff there is one |
| Bitmap.Bitmap.TryFindAndClaim | src/bitmap.rs:489-516 | Clears exactly one set bit, the lowest whose claim succeeded in the first such chunk going round from the hint; gives up only if every set bit's claim fails |
| BitmapClaims.EveryBitOnce | src/bitmap.rs:213-248 | With every word CAS one step of any thread: each bit that was free is at all times free, in one completed claim, or in one partial claim, exactly once |
| BitmapClaims.ClaimsDisjoint | src/bitmap.rs:551-588 | Completed claims, within a chunk or across chunks, never share a bit with each other or with the free bits |
| BitmapClaims.RollbackIsExact | src/bitmap.rs:240-246 | The words a failing claim puts back are exactly the bits it took |
| BitmapClaims.ChunkFirstIs | src/bitmap.rs:240-246 | Rollback begins with the pieces of the chunk the claim failed in, exactly these, and then goes through those of the chunks before it |
| BitmapClaims.NothingLost | src/bitmap.rs:568-579 | When all claims are given back the free bits are those of the beginning |
| BitmapClaims.ClaimAlone | src/bitmap.rs:551-588 | A claim of any number of words and chunks that nobody disturbs completes with exactly its run if all of it is free, and otherwise leaves everything as it was |
| BitmapClaims.ReleaseAlone | src/bitmap.rs:390-397 | A release that nobody disturbs makes exactly the bits of its claim free again |
| Chunkmap.NeverHidden | src/bitmap.rs:354-371 | Under any interleaving of sets and of claims that each lie in one 64-bit field, a non-empty chunk has its summary bit set or some thread is still to set or re-check it |
| Chunkmap.RollbackHidesChunk | src/bitmap.rs:240-246 | For every claim of more fields than one, a run with it from idle threads to idle threads after which a non-empty chunk is hidden |
| Chunkmap.SafeIffOneField | src/bitmap.rs:213-248 | Beside single-field claims in any number and interleaving, claims of a shape never leave a hidden chunk behind iff the shape lies in one field |
| ChunkmapAlone.SetAlone | src/bitmap.rs:390-397 | A set that nobody disturbs adds exactly its bits and leaves the summary bit set |
| ChunkmapAlone.ClaimAlone | src/bitmap.rs:421-432 | A claim that nobody disturbs takes exactly its bits iff all are there, and clears the summary bit iff the chunk is then empty; else nothing changes |
| Arena.Arena.constructor | src/arena.rs:79-175 | The four fresh bitmaps agree: all slices free, none to purge, committed all or none, dirty iff the OS did not hand them out zeroed; the account of non-zero bytes is what it did not |
| Arena.Arena.EnsureCommitted | src/arena.rs:372-383 | True iff the run is committed already or the OS grants it; then exactly the run is committed in addition, else nothing changes; the commit bits stay those of the slices with memory |
| Arena.Arena.AllocSlices | src/arena.rs:391-402 | Finds a run of one chunk iff some chunk has one, the best of the first such chunk from the hint, and hands it out unless its commit is refused; it was unused, is committed and backed by memory, and is reported clean iff the arena began zeroed and no slice of it was ever handed out since its marks were last purged, which means it is zero; exactly it leaves the free set. A refused run is free again, and the bitmaps then agree iff the delay is zero or negative or the arena pinned |
| Arena.Arena.PutBack | src/arena.rs:393-397 | A run taken and not committed makes the free bitmap what it was, and is scheduled as by any release; agreement is kept iff it is not scheduled, purged at once, or committed and dirty |
| Arena.Arena.HandOut | src/arena.rs:398-401 | Clean is reported iff the arena began zeroed and the run has no dirty bit, and means that no byte of it is non-zero; exactly the run becomes dirty |
| Arena.Arena.FreeSlices | src/arena.rs:406-410 | Exactly the run becomes free and is scheduled, with the deadline armed, or purged at once for a zero delay, with the exact commit bits, dirty bits and contents that takes; the agreement is never lost, and an immediate purge restores it |
| Arena.Arena.SchedulePurge | src/arena.rs:426-441 | The exact condition for what is scheduled to be committed and dirty; the deadline is armed once and not pushed back; an immediate purge takes exactly the marks and contents of the runs that are wholly free |
| Arena.Arena.MaybePurge | src/arena.rs:446-472 | Purges exactly when due or forced, never a pinned arena, leaves the free set as it was, reports whether a run was purged; afterwards the bitmaps agree whatever was scheduled, and the commit bits are those of slices with memory iff no run was committed in part |
| Arena.Arena.PurgeRun | src/arena.rs:496-511 | Only a run still wholly free is decommitted, and exactly its bytes become zero; its commit bits and its dirty bits go all or none; the free bits it borrows are given back |
| Arena.Arena.RunEnd | src/arena.rs:483-495 | The run ends at its field, at the arena or at a slice that is not scheduled, and nowhere before |
| Arena.Arena.RunPurge | src/arena.rs:478-515 | Empties the purge set and restores the free set exactly; when decommitting, a slice loses its contents iff it was scheduled and the whole run it is in, within its 64-bit field, was still free, and its commit and dirty bits iff moreover that run had them all; the commit bits are then those of slices with memory iff no such run was committed in part; true iff there was such a run |
| RefusedCommit.ScheduledUncommitted | src/arena.rs:393-397 | A lazily committed, unpinned arena with a positive delay whose first commit is refused: it has an uncommitted slice scheduled |
| RefusedCommit.StaleCommitBit | src/arena.rs:497-509 | A run of allocations, a release, a refusal and a purge after which a commit bit is set and the slice has no memory |
| ArenaAnswers.Ask | src/arena.rs:391-402 | The arena's answers are those the thread heap supposes: runs of its free slices, which exactly they leave |
| ArenaAnswers.AskAndReturn | src/arena.rs:391-410 | Any run handed out can be given back, and the free set is then as before |
| PageMap.PageMap.EnsureTop | src/page_map.rs:58-86 | The table appears with every entry the shared zero submap: the flat map is unchanged |
| PageMap.PageMap.EnsureSubmap | src/page_map.rs:91-112 | A dedicated submap replaces the shared one without changing the flat map; without memory nothing changes |
| PageMap.PageMap.Lookup | src/page_map.rs:183-197 | The two-level lookup is the flat map |
| PageMap.PageMap.Unregister | src/page_map.rs:153-177 | Exactly the range becomes null, and the shared submap is never written |
| PageMap.PageMap.Register | src/page_map.rs:120-147 | Succeeds iff every slice of the range can be mapped, and maps exactly it; a failure leaves the flat map unchanged iff the slices before the failing one were unmapped |
| PageMap.FailureForgets | src/page_map.rs:131-143 | On the map that `MappedLast` builds, with a page at a slice whose successor cannot be mapped: the failure unmaps that page |
| SizeClasses.FormulaMonotone | src/bits.rs:235-246 | The shift-and-mask formula is monotone for all word counts above 8, without a cap |
| SizeClasses.BinMonotone | src/bits.rs:235-246 | Larger sizes never get smaller bins, small rule, formula and huge cap together |
| SizeClasses.TopOfClass | src/bits.rs:235-246 | The largest word count of a class, and that nothing above it is in the class |
| SizeClasses.WasteUnderAQuarter | src/heap.rs:28-41 | A class wastes fewer than a quarter of the words asked for, for exactly the counts other than 3 |
| SizeClasses.BinSizes | src/heap.rs:28-41 | The loop fills the table with the largest size of each class and 0 for unused classes |
| SizeClasses.TableHoldsTops | src/heap.rs:28-41 | Any such table holds exactly the class tops |
| SizeClasses.GoodSizeFits | src/heap.rs:57-65 | A request fits its good size iff the rounding does not overflow |
| SizeClasses.GoodSizeMonotone | src/heap.rs:57-65 | Monotone for all sizes that do not overflow, huge ones included |
| SizeClasses.GoodSizeIdempotent | src/heap.rs:57-65 | Idempotent for exactly the sizes that do not overflow |
| SizeClasses.AlignUpIs | src/layout.rs:20-29 | A multiple, at least the size and less than one step above it; what it is when the sum wraps |
| SizeClasses.HugeFits | src/heap.rs:415-418 | The slices of a huge page cover its block and the block the request iff nothing overflows |
| SizeClasses.HugeWraps | src/heap.rs:415-418 | A request asks for no slices iff it overflows or is empty |
| Dispatch.XorTells | src/heap.rs:936-942 | The XOR is 0 iff same thread and no flags, is within the flag mask iff same thread, and its low bits are the flags |
| Dispatch.StampIdInjective | src/init.rs:35-54 | Thread ids and the two sentinels are pairwise different with clear flag bits |
| Dispatch.SetOwnerRestamps | src/page.rs:386-401 | The flag-preserving CAS on the word is the machine's restamp |
| Dispatch.SetInteriorFlags | src/page.rs:449-453 | The fetch_or sets the interior flag and keeps the stamp |
| Dispatch.Recovers | src/heap.rs:995-1006 | Any offset into a block leads back to its start |
| Dispatch.FreeFindsOwnerAndBlock | src/heap.rs:1012-1059 | In every reachable state, freeing any live pointer takes an owner arm iff the caller owns the page and frees exactly the start of its block |
| Dispatch.BlockSizeCovers | src/heap.rs:215-230 | A block of the class that serves a request has room for it |
| Dispatch.AlignedServed | src/heap.rs:361-381 | For every size and power-of-two alignment whose padding does not overflow, stated on the padded size itself: the pointer is aligned, in its block with room, usable for at least the size, and leads back |
| Dispatch.PointsBack | src/heap.rs:1326-1340 | `usable_size` is the rest of the block |
| PageQueue.PageQueue.PushFront | src/page_queue.rs:61-75 | The doubly linked list, its two ends and its count represent the page followed by the old queue |
| PageQueue.PageQueue.Remove | src/page_queue.rs:81-101 | Exactly the page leaves, the others keep their order, its links are cleared |
| PageQueue.PageQueue.Walk | src/heap.rs:249-264 | The walk along `next` meets every page once, in order |
| HeapState.BlockInside | src/page.rs:117-121 | Every block lies within its page's slices, past the header unless the page is huge |
| HeapState.SpanHoldsSix | src/heap.rs:67-77 | A page spans 1, 8 or 64 slices, the fewest of these in which six blocks of its class fit beside an OS page |
| HeapState.ReservesSix | src/page.rs:117-121 | So every page of a class holds at least six blocks |
| HeapState.LiveAddressMapped | src/heap.rs:459-497 | Every address of a live block leads to its page through the page map |
| HeapState.LiveBlocksDisjoint | src/page.rs:231-254 | Live blocks share no byte, whichever pages they are in |
| HeapState.UserRangesDisjoint | src/heap.rs:361-381 | No two pointers the program holds share a byte |
| HeapState.PageCarved | src/heap.rs:459-497 | A run the arena hands out was never mapped, and the page made of it keeps queues, cache, page map and pointers in agreement |
| HeapState.PageReleased | src/heap.rs:1150-1176 | Releasing a page without live blocks keeps them in agreement |
| HeapState.PointerReturned | src/heap.rs:928-970 | Taking one pointer back leaves all others good |
| HeapState.AllocatedBlock | src/page.rs:537-580 | A page serves a block that was not live, or all its blocks are |
| HeapState.PartlyLeavesOne | src/heap.rs:1207-1254 | After a partial collect just the pushed block is queued and another block is in use, or it was a whole collect |
| HeapState.NothingLeft | src/heap.rs:505-557 | If every linked page is drained and in use, and the program holds no pointer, there is no linked page |
| ThreadHeap.ThreadHeap.IsFull | src/page.rs:809-819 | Full iff every block the page can hold is live |
| ThreadHeap.ThreadHeap.AllocFrom | src/page.rs:537-562 | The page is refilled if its list is empty and its first block popped: one block that was not live becomes live, or all are live |
| ThreadHeap.ThreadHeap.ClearDirect | src/heap.rs:1121-1127 | Exactly the slots of the page are cleared |
| ThreadHeap.ThreadHeap.ReleaseSlices | src/heap.rs:1150-1176 | Exactly the page's slices are unmapped and free again |
| ThreadHeap.ThreadHeap.RetirePage | src/heap.rs:1087-1132 | An emptied page stays iff already retired or the sole one of a size class, then with its countdown armed and tracked; else it is released at once |
| ThreadHeap.ThreadHeap.TryReclaim | src/heap.rs:337-356 | An abandoned page joins the front of its queue, drained, its blocks untouched |
| ThreadHeap.ThreadHeap.ScanQueue | src/heap.rs:248-264 | First fit: every page passed over has all its blocks live; the one found has not, and is no longer retired |
| ThreadHeap.ThreadHeap.FindFreePage | src/heap.rs:248-266 | The queue's first page with room, else the reclaimed one; none only if all blocks of all these are live |
| ThreadHeap.ThreadHeap.SweepBin | src/heap.rs:289-327 | The front page's countdown goes down, is cancelled if the page is in use, or ends in release; other bins untouched |
| ThreadHeap.ThreadHeap.CollectRetired | src/heap.rs:274-334 | One sweep of exactly the tracked bins; those tracked afterwards reach from the first to the last whose countdown goes on; no live block is touched |
| HeapState.GoesAfter | src/heap.rs:289-327 | A page retired with a countdown of n survives n - 1 sweeps in front of its queue and goes with the n-th |
| ThreadHeap.ThreadHeap.NewPage | src/heap.rs:459-497 | Exactly one fresh page of the class, of the span for its block size, with room; or nothing changed, and then the arenas have no run of that span among the free slices or the page map does not take it |
| ThreadHeap.ThreadHeap.AllocHuge | src/heap.rs:415-455 | Exactly one page of one served block; or nothing changed, and then no run of the rounded size is to be had or no header; none for a size whose rounding overflows |
| ThreadHeap.ThreadHeap.LinkPage | src/heap.rs:480-495 | The run was not mapped before; queue, map and arena change by exactly this page |
| ThreadHeap.ThreadHeap.AllocGeneric | src/heap.rs:215-243 | Some block that was not live, of the class of the request, from a page that is then the cached one: the first page of the queue with room if there is one, with no slice taken; else the reclaimed page if it has room; else a fresh one. None only if every page of the queue and the reclaimed one have all their blocks live and, with the slices then free, the arenas have no run for a page of this class or the page map does not take it. With no page found the other bins are swept once, else they are untouched |
| ThreadHeap.ThreadHeap.AllocBlock | src/heap.rs:197-212 | The same with the direct cache in front, for every size; none only if no page of the queue nor the reclaimed one can serve and the one run this request needs is refused, and always if its rounding overflows |
| ThreadHeap.ThreadHeap.Alloc | src/heap.rs:182-212 | A new pointer with room for the size, from the first page with room as above; every pointer held before stays good; the direct cache keeps agreeing with the queues; none only if no page can serve and the run is refused, and always for a size whose rounding overflows |
| ThreadHeap.ThreadHeap.AllocAligned | src/heap.rs:361-381 | The same, aligned, for every size and power of two: none only if the padded size, or up to alignment 8 the size itself, overflows or is refused as such |
| ThreadHeap.ThreadHeap.BlockOf | src/heap.rs:995-1006 | From the address alone, the block behind a held pointer |
| ThreadHeap.ThreadHeap.Free | src/heap.rs:928-1059 | From the address alone: exactly this pointer is given up and its block deferred; an emptied page stays with its countdown armed iff it was already retired or is the sole one of a size class, else its slices are free again; an abandoned page is drained, and released iff no block of it is live; all other pointers stay good, and nothing leaks |
| ThreadHeap.ThreadHeap.ForeignFree | src/page.rs:485-505 | A foreign free queues exactly the block behind the pointer and changes nothing else |
| ThreadHeap.ThreadHeap.TryCollectMt | src/heap.rs:1207-1254 | A claimed page ends up released iff none of its blocks is live, else let go with an empty stack, its lists those of the one or two drains made |
| ThreadHeap.ThreadHeap.Collect | src/heap.rs:505-557 | For every page of every queue: drained, and kept iff a block of it is live or, unforced, its retirement keeps it; forced, every page left has a live block, so once the program holds no pointer no page is left; no live block is touched |
| ThreadHeap.ThreadHeap.AbandonPage | src/heap.rs:1265-1290 | Released if empty, else drained and left to be reclaimed with its live blocks |
| ThreadHeap.ThreadHeap.Drop | src/heap.rs:1292-1318 | All queues are empty afterwards, every page was released or abandoned with a live block, and every pointer the program holds is still good |
| HeapLifetime.FreedExactlyOnce | src/heap.rs:707-726 | Over every run no heap is freed twice, and one is freed exactly when it is no longer allocated, with no reference left; while allocated its count is its handle plus all its theaps, and once these are gone a thread is freeing it |
| HeapLifetime.FreedOnlyWhenUnreferenced | src/heap.rs:707-726 | It is freed only with its handle gone and all its theaps torn down |
| HeapLifetime.FoundTheapIsRight | src/init.rs:254-277 | A theap found by comparing addresses was made for this very heap, not for an earlier one at the address, and is the thread's only one for it |
| HeapLifetime.ZeroIsBeingFreed | src/heap.rs:707-726 | A count of 0 is always being acted on by a thread |
| HeapLifetime.InvStep | src/heap.rs:689-870 | Every step keeps the count equal to the handle plus all theaps, whatever stage they are in (which theaps deletion and exit tear down is `HeapAlone`) |
| HeapAlone.GetAlone | src/init.rs:254-277 | From any reachable state, `theap_for` run alone: the thread has exactly one theap of the heap afterwards, a new one in front and counted only if it had none |
| HeapAlone.DeleteAlone | src/heap.rs:801-812 | Deletion run alone: the caller's own theap for the heap has left its list, the others keep their order, the handle's reference is gone; the heap is freed iff no other thread has a theap for it, else its count is exactly these |
| HeapAlone.ExitAlone | src/init.rs:234-246 | A thread's exit run alone drops all its theaps and touches no other thread's |
| HeapAlone.ExitFreesLast | src/heap.rs:707-726 | The exit of the last thread with a theap for a deleted heap frees the heap |
| TheapRegistry.Registry.TheapFor | src/init.rs:254-277 | Finds the thread's theap by address, else puts a new one in front; null only without memory |
| TheapRegistry.Registry.TakeTheapFor | src/init.rs:280-306 | Unlinks exactly the theap found; the others keep their order |
| TheapRegistry.Registry.Drop | src/init.rs:234-246 | Every theap is torn down once, in list order |

## Left out

- Calls into the operating system, options, statistics, randomness and the clock: parameters, or not modelled; fresh and recommitted memory reads as zero and decommit succeeds; what a reset does to contents is taken as nothing.
- Memory orderings weaker than sequential consistency, and spurious failures of weak compare-and-swap: each retry loop is its one successful step.
- Arena runs above 512 slices: `set_n` and `clear_n` work within one chunk, so an arena allocation takes at most 512 slices; the search for longer runs is modelled at the bitmap.
- Chunkmap.NeverHidden: covers claims of one field; that it is false of all longer ones is `SafeIffOneField`. Claims across chunks, which are longer still, are in `BitmapClaims` only.
- PageTheorems.UnownedRegistryAgrees: speaks of pages whose registration found memory for the registry; a page without it stays stamped and unregistered.
- A reclaimer that reads a registry bit of a page released since: the read and the claim are one step of one page incarnation.
- That every freed block or page becomes usable again: it does not, see `PageLost`; also `run_purge` drops the bits of a run it cannot claim, and a page pushed in front of a retired one keeps the sweep from it until a forced collect.
- PageLists.Page.TakePartly: one owner-only walk without atomic operations is one step of the page machine.
- The list links of `PageLists.Page` hold decoded successors; that encoded links read back is `FreeList.ReadsBack`.
- ThreadHeap.ThreadHeap.Alloc: the free slices are those of all arenas the process will ever have; reserving another arena is not a step of its own.
- Over-aligned zeroed requests, which clear the user's bytes directly after `AllocAligned`.
- ThreadHeap.ThreadHeap.AllocHuge: the page header's own memory is not part of the address space modelled.
- ThreadHeap.ThreadHeap.Drop: the direct cache of the dying heap is emptied, where the code leaves it to be freed with the heap.
- ThreadHeap.ThreadHeap.ForeignFree: foreign frees come between the owner's operations; their interleaving within them is the page machine's subject.
- The bin queues of `ThreadHeap` are sequences; that the linked queue represents a sequence is `PageQueue`.
- HeapLifetime.FoundTheapIsRight: a handle is deleted once, while no thread is inside a call on it, as the interface demands.
- Destroying a heap with live blocks, which frees them in bulk by contract.
- The doubly linked list of a heap's theaps under its lock: the same operations as `PageQueue`.
- Padding, double-free detection and the other hardened-build checks.
- `good_size` against `usable_size` of huge requests: they round to different units.
- The metadata allocator, the subprocess and its choice of arena, spin locks, and the public wrappers.
