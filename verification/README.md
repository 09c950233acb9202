# A Dafny model of the verified memory allocator

The allocator (a Rust port of mimalloc) gives every thread a heap of pages.  A page is a run of equal blocks with
three intrusive lists: `free` and `local_free`, which only the owner touches, and `thread_free`, to which any thread
pushes.  This project models the allocator's hardest parts and proves what they promise, over every input, every
interleaving and every run.

| files | what they model |
|---|---|
| `Chains`, `Protocol*` | freeing a block from another thread: a transition system with any number of threads, pages and blocks, explicit program counters, and compare-exchanges that may fail for no reason |
| `MachineWord`, `PackedWord`, `ProtocolPacked`, `PackedMachine`, `PackedRuns` | a page's 64-bit atomic word, list head and delay state packed together, and the protocol on packed words |
| `FreeList`, `PageLists` | the lists and the page's counters, updated in place through one shared memory |
| `WordBits`, `CommitMask`, `CommitSpec`, `CommitMeaning`, `CommitSegment` | the 512-bit commit masks, and committing and decommitting the chunks of a segment |
| `Layout`, `Bins` | finding the page of a block from its address; size classes |
| `ProtocolLayout` | the pages of the protocol at the addresses of `Layout` |

## How the protocol is modelled

`Protocol` describes one owner and any number of freeing threads.  A step is one atomic access, or work on memory that
only the stepping thread owns.  The state has two groups of fields.  The first is what the program stores: the first
word of every block, list heads, delay bits, `used`, `capacity`, page spans and program counters.  The second is
history: what the lists are meant to contain, and who holds each block.  Steps read the history in two ways only.

- Appending a whole list (`AppendAll`) reads its length and its last block, which the program finds by walking it;
  `FreeList.LL.Append` proves that the walk finds them.
- Freeing a block and writing into it (`FreeStart`, `LocalFree`, `Scribble`) require the block to be `Live`: this is the
  contract of the user, who holds a block from allocation to free.

The page of a block is not history: `PageOf` finds it from the address and the pages set up, `ProtocolInv.PageOfIs` proves
that it is the page the block was carved out of, and `ProtocolLayout.FreeFindsPage` that the program's address
calculations find the same page.

`ProtocolInv.Inv` is the invariant and `ProtocolRuns` proves it of every reachable state.  The theorems about delay states,
conservation, counting, pushes and retirement speak of what walking memory from a list head meets.  Two kinds of history
remain in statements: which blocks are live, and, in the theorems about passes, `Lst`, the contents of a list, which
`ProtocolTheorems.ListsAreChains` proves to be the one chain that memory holds, and `done`, the record of what a pass did
with each block, which `ProtocolPasses.DelayedPass` ties to steps of the run.  The user of a live block may overwrite it at
any time, so nothing rests on the contents of allocated memory.

`PackedMachine` is the protocol as the program runs it: one 64-bit word per page, each thread keeps the word it loaded, a
compare-exchange succeeds when the two words are equal, and state and pointer are taken out by bit operations.
`PackedRuns.PackedRun` and `PackedRuns.PackedRunExists` prove that its runs are the runs of `Protocol`, so that every
theorem about the one holds of the other.  `ProtocolAba.AbaHappens` exhibits a run with the ABA situation, so that the
theorem about it is not empty.

That nothing goes wrong is not enough: an operation that does nothing is safe too.  `ProtocolOperations`,
`ProtocolCollect`, `ProtocolSpin` and `ProtocolReclaim` say what each operation achieves, over whole runs where others
interfere: what a remote free, a local free, an allocation, a collection and a pass do to the lists that walking memory
meets, when a pass gives up on a block, and that the owner can always bring everything home.

The segment operations are classes whose methods work on bitmaps in arrays; each is proved equal to a function on sets
of chunks in `CommitSpec`.  The safety theorems are about those functions, and `CommitMeaning` says of each, in both
directions and byte by byte, what it commits, schedules and gives back, and when it fails or does nothing.

## Where code and comments disagree

- The overview in `verus-mimalloc/free.rs:28-30` says a local free updates `local_free`; the code
  (`free.rs:323-337`) inserts into `free`.  The model follows the code.
- `LL::wf` (`verus-mimalloc/linked_list.rs:278-280`) ties every list to one page, but the heap's delayed list holds
  blocks of many pages (`linked_list.rs:2743`).  The model puts that condition on page lists only.
- The size given for the huge bin is nominal (`verus-mimalloc/bin_sizes.rs:141-147`): `Bins.HugeBinRange` proves up to
  which word size the range it implies is right.

## Model

| member | source | states |
|---|---|---|
| `ProtocolRuns.StepKeepsInv` | verus-mimalloc/free.rs:594-936 | every step of any thread, including spuriously failing compare-exchanges, keeps the invariant of the whole protocol |
| `ProtocolRuns.RunKeepsInv` | verus-mimalloc/free.rs:594-936 | the invariant holds in every state of every run from the empty heap |
| `ProtocolTheorems.DelayStateExact` | verus-mimalloc/linked_list.rs:3316-3377 | in every reachable state a page in state Freeing or NoDelayedFree has exactly one delayed block (in a window, on the delayed list, being drained, or popped and unchecked), one in state UseDelayedFree has none, and no page is in state NeverDelayedFree |
| `ProtocolTheorems.FreeingIffInWindow` | verus-mimalloc/free.rs:729-930 | the bits are Freeing if and only if a thread is between its compare-exchange and its `fetch_xor(3)`, and then exactly one is |
| `ProtocolTheorems.NoLostWakeup` | verus-mimalloc/free.rs:1027-1046 | whenever `thread_free` is not empty, a delayed block of that page will make the owner look at it, or the owner is between its successful `try_use_delayed_free` and taking the list |
| `ProtocolTheorems.LeaveTogglesFreeing` | verus-mimalloc/free.rs:884-925 | `fetch_xor(3)` always meets Freeing and leaves NoDelayedFree, with the list head unchanged |
| `ProtocolTheorems.BlocksConserved` | verus-mimalloc/alloc_generic.rs:642-685 | a block exists if and only if it is somewhere; it is then at exactly one place, at one position of one list if on a list, and belongs to exactly one page |
| `ProtocolTheorems.PageListsArePure` | verus-mimalloc/linked_list.rs:3045-3100 | page lists hold blocks of their own page only, and the taken list those of the page being collected |
| `ProtocolTheorems.UsedIsExact` | verus-mimalloc/alloc_generic.rs:675-682 | in every reachable state `used` is exactly the number of carved-out blocks that walking `free` and `local_free` does not meet, and `used` plus the lengths of the two chains is `capacity` |
| `ProtocolTheorems.NoUnderflow` | verus-mimalloc/free.rs:323-337 | `used - count` in collecting and `used - 1` in freeing never go below zero |
| `ProtocolTheorems.QuiescentPage` | verus-mimalloc/free.rs:340-341 | when `used` is 0 every block of the page is on its own free lists, the word is null with UseDelayedFree, and no thread is anywhere inside a free of the page |
| `ProtocolTheorems.RetireCheckNeverSpins` | verus-mimalloc/linked_list.rs:3267-3312 | `check_is_good` on a page whose blocks were given up succeeds on its first load, whatever others did in between |
| `ProtocolTheorems.NoUseAfterRetire` | verus-mimalloc/segment.rs:3797-3800 | a thread inside a free, up to its `fetch_xor(3)`, always has a page that is set up and not being retired |
| `ProtocolTheorems.ListsAreChains` | verus-mimalloc/linked_list.rs:268-287 | every list is intact in memory, determined by its head, without repetition and disjoint from every other list |
| `ProtocolTheorems.AbaSafePush` | verus-mimalloc/free.rs:696-836 | a successful compare-exchange onto `thread_free` leaves in memory the block followed by the list of that instant, and every other list as it was, however stale the head it compared with |
| `ProtocolTheorems.AbaSafeDelayPush` | verus-mimalloc/linked_list.rs:2875-2933 | the same for the push onto the heap's delayed list |
| `ProtocolTheorems.AbaSafePutBack` | verus-mimalloc/alloc_generic.rs:1316-1325 | the same when the owner puts a block back on the delayed list |
| `ProtocolTheorems.WritesDisturbNothing` | verus-mimalloc/linked_list.rs:1659-1756 | writes of next pointers into held blocks, writes of the user into live blocks and failed compare-exchanges change no list |
| `ProtocolTheorems.LiveIsBlock` | verus-mimalloc/layout.rs:63-71 | every live pointer is the start of exactly one block, with index below capacity, of the page found from its address and of no other; not null and aligned |
| `ProtocolTheorems.LiveBlocksDisjoint` | verus-mimalloc/layout.rs:63-71 | byte ranges of distinct live blocks are disjoint in every reachable state |
| `ProtocolTheorems.MallocIsFresh` | verus-mimalloc/alloc_fast.rs:394-414 | an allocation hands out a block of the page that was not live, that no thread holds and that is on no list any more |
| `ProtocolOperations.MallocPops` | verus-mimalloc/alloc_fast.rs:394-414 | allocating is possible if and only if walking `free` meets a block; it hands out the first, leaves the rest of the list, counts one more, and changes no other list, page or block |
| `ProtocolOperations.LocalFreePushes` | verus-mimalloc/free.rs:320-345 | a free on the owner's thread puts the block in front of `free` of the page found from its address, counts one less, and changes no other list, page or block |
| `ProtocolOperations.ExtendCarves` | verus-mimalloc/alloc_generic.rs:691-943 | extending puts the next blocks in address order in front of `free` and raises the capacity by their number; nothing else changes |
| `ProtocolOperations.EnableOpens` | verus-mimalloc/page.rs:900-950 | a page set up is empty, counts nothing and accepts delayed frees; no other page and no list changes |
| `ProtocolOperations.RetireReleases` | verus-mimalloc/linked_list.rs:3267-3312 | a page with `used` 0 is given up and released by two steps of the owner, whatever the answer of its compare-exchanges; no other list, page or live block changes |
| `ProtocolOperations.FreeCompletes` | verus-mimalloc/free.rs:594-936 | over every run, from the call to the return of a remote free: the block leaves the user, and is pushed in front of `thread_free` of its page, at an instant when the page is not in state UseDelayedFree, or in front of the heap's delayed list, after the page went from UseDelayedFree to Freeing |
| `ProtocolTheorems.HeadsAligned` | verus-mimalloc/layout.rs:1348-1350 | every list head leaves the low bits free |
| `ProtocolAba.AbaHappens` | verus-mimalloc/free.rs:671-836 | a run in which a thread's compare-exchange succeeds although the block it compared with was removed, allocated and freed again since its load |
| `ProtocolPasses.DelayedPass` | verus-mimalloc/alloc_generic.rs:1265-1329 | a finished pass has handled exactly the blocks of the delayed list it took, in order; each was freed to its page or put back by a step of this pass; the result is true if and only if none was put back |
| `ProtocolPasses.PassBounded` | verus-mimalloc/alloc_generic.rs:1265-1329 | blocks handled, in hand and left always add up to the list taken, however many others push meanwhile |
| `ProtocolReclaim.PassBegins` | verus-mimalloc/alloc_generic.rs:1265-1266 | from every reachable state between operations, two steps of the owner take the whole delayed list, whatever it is, onto the private list and leave it empty; a pass over an empty list is over at once and changes nothing |
| `ProtocolReclaim.PassTakesAll` | verus-mimalloc/linked_list.rs:2940-2975 | whatever others push between the load and the swap of the list head, the list taken ends with the list that was there at first, and the delayed list is left empty |
| `ProtocolSpin.GivesUpAfterFive` | verus-mimalloc/linked_list.rs:3316-3377 | in every pass of every run the owner finds the page of a block in state Freeing at most five times, and is putting a block back only if it found so exactly five times |
| `ProtocolSpin.FreedUnlessFive` | verus-mimalloc/free.rs:1027-1046 | a finished pass has freed a block of the list it took if and only if the owner found its page in state Freeing fewer than five times |
| `ProtocolSpin.FreedIfLeft` | verus-mimalloc/linked_list.rs:3342-3375 | if the page is ever out of state Freeing while the owner is still trying the block, the pass frees it |
| `ProtocolCollect.CollectDoes` | verus-mimalloc/alloc_generic.rs:596-685 | over every run, from the first load of `page_free_collect` to its return, alone or inside a pass: the `thread_free` list of one instant, which ends with the list at the start, is taken and left empty, the two free lists become what `PageLists.Collected` makes of them and it, and `used` falls by its length |
| `ProtocolCollect.CollectBringsBack` | verus-mimalloc/page.rs:165-185 | a call of `page_free_collect` empties `thread_free` at some instant, brings every block that was on it to one of the page's own lists, leaves a free block if there was any to collect, and when forced leaves nothing on `local_free` |
| `ProtocolCollect.DelayedFreeDoes` | verus-mimalloc/free.rs:1027-1046 | over every run, from the success of `try_use_delayed_free` to the end of the free: the `thread_free` list of one instant is taken and left empty, the page's lists change as `PageLists.Collected` says without force, the block goes in front of `free`, and `used` falls by the length of the list taken and one |
| `ProtocolPasses.OwnerProgress` | verus-mimalloc/linked_list.rs:3316-3377 | every step fixed by the owner's program counter, except a failed compare-exchange, lowers a rank, including each turn of the wait in `try_use_delayed_free` |
| `ProtocolProgress.PassEnds` | verus-mimalloc/alloc_generic.rs:1265-1329 | in a pass of any run the owner takes at most 16 steps per block of the list taken, plus 2, plus 6 per failed compare-exchange and 2 per page it retires; it retires no more pages than were set up; and its compare-exchanges fail, other than spuriously, at most as often as an exchange of another thread succeeds |
| `ProtocolPasses.SoloFinishes` | verus-mimalloc/free.rs:628-936 | from any reachable state a freeing thread finishes within eight steps of its own: the free never waits for another thread |
| `ProtocolQuiet.PassNoneBack` | verus-mimalloc/alloc_generic.rs:1316-1328 | while nobody frees remotely, a pass puts nothing back |
| `ProtocolQuiet.QuietPassReclaims` | verus-mimalloc/alloc_generic.rs:1265-1329 | a pass during which nobody frees remotely reports success, empties every `thread_free` and the delayed list, returns every page to UseDelayedFree, and leaves `used` equal to the number of live blocks: nothing freed before is leaked |
| `ProtocolReclaim.ReclaimPossible` | verus-mimalloc/alloc_generic.rs:1265-1329 | from every reachable state between operations with nobody freeing remotely, the run can go on by steps of the owner alone, at most 16 per block of the delayed list and 3 more, to a state between operations in which every page's word is null with UseDelayedFree and the delayed list is empty |
| `PackedWord.UnpackArithmetic` | verus-mimalloc/linked_list.rs:3447-3450 | the packed word is the pointer plus the delay code |
| `PackedWord.UnpackInjective` | verus-mimalloc/linked_list.rs:3575-3600 | packed words are equal if and only if the pairs are, so comparing words compares pairs |
| `PackedWord.PackExists` | verus-mimalloc/linked_list.rs:3447-3450 | every 4-aligned pointer and delay state has a packed word |
| `PackedWord.GetDelayIs` | verus-mimalloc/linked_list.rs:3638-3652 | `get_delay` reads the delay of the pair |
| `PackedWord.GetPtrIs` | verus-mimalloc/linked_list.rs:3656-3670 | `get_ptr` reads the pointer of the pair, which is 4-aligned |
| `PackedWord.SetPtrIs` | verus-mimalloc/linked_list.rs:3674-3694 | `set_ptr` changes the pointer only |
| `PackedWord.SetFreeingIs` | verus-mimalloc/linked_list.rs:3698-3715 | `set_freeing` changes the delay to Freeing only |
| `PackedWord.SetDelayIs` | verus-mimalloc/linked_list.rs:3719-3751 | `set_delay` changes the delay only |
| `PackedWord.AndThreeIs` | verus-mimalloc/linked_list.rs:3382-3433 | `fetch_and(3)` empties the list and keeps the delay |
| `PackedWord.XorThreeIs` | verus-mimalloc/linked_list.rs:3550-3573 | `fetch_xor(3)` keeps the list and complements the delay code |
| `PackedWord.AccessSimulates` | verus-mimalloc/free.rs:721-917 | each atomic access returns the same old value and the same success on the packed word as on the pair |
| `PackedWord.PackedRefinesPair` | verus-mimalloc/linked_list.rs:3447-3751 | any sequence of loads, compare-exchanges, `fetch_and(3)` and `fetch_xor(3)` on the packed word simulates the pair machine |
| `ProtocolPacked.StepChangesWord` | verus-mimalloc/free.rs:721-917 | in every run a step changes a page's word by the one operation it issues and by nothing else |
| `PackedMachine.EnabledIff` | verus-mimalloc/free.rs:729-836 | comparing the packed word in memory with the one a thread holds succeeds exactly when the compare-exchange on pairs does |
| `PackedRuns.PackedStep` | verus-mimalloc/free.rs:671-930 | every step on packed words, with decisions by bit operations, is the step of the protocol of the same name, and all packed words, in memory and held by threads, go on standing for the pairs |
| `PackedRuns.PackedRun` | verus-mimalloc/linked_list.rs:3447-3751 | every run on packed words is a run of the protocol, and in each of its states the packed words stand for list heads and delay states |
| `PackedRuns.PackedRunExists` | verus-mimalloc/linked_list.rs:3447-3751 | conversely packed words can carry out every run whose pages lie below two to the power 64 (`WordBits.FitsIff`: exactly the addresses that words stand for) |
| `FreeList.LL.IsEmpty` | verus-mimalloc/linked_list.rs:1457-1464 | true if and only if the list has no block |
| `FreeList.LL.InsertBlock` | verus-mimalloc/linked_list.rs:398-620 | pushes the block in front; every list that avoids it is unchanged |
| `FreeList.LL.PopBlock` | verus-mimalloc/linked_list.rs:1467-1655 | removes and returns the first block |
| `FreeList.LL.Append` | verus-mimalloc/linked_list.rs:1952-2515 | the list becomes the other list followed by itself, the other becomes empty, its length is returned, other lists are unchanged, and the walk ends |
| `FreeList.LL.PrependContiguousBlocks` | verus-mimalloc/linked_list.rs:2537-2638 | the list becomes start, start + bsize, ..., last followed by itself; other lists are unchanged |
| `FreeList.LL.MakeEmpty` | verus-mimalloc/linked_list.rs:2641-2665 | leaves an empty list whatever it was |
| `PageLists.ExtendAmount` | verus-mimalloc/alloc_generic.rs:1131-1145 | at least one block, never more than are left, at most 4096 bytes or 4 blocks, and no fewer than that allows |
| `PageLists.CollectedKeepsAll` | verus-mimalloc/alloc_generic.rs:596-633 | collecting loses and invents no block, makes an exhausted page usable if any block came back, and when forced leaves `local_free` empty |
| `PageLists.DividedCount` | verus-mimalloc/alloc_generic.rs:675-682 | blocks out plus the two lengths is the number of blocks below capacity |
| `PageLists.Page.Counts` | verus-mimalloc/alloc_generic.rs:675-682 | `used` plus the lengths of `free` and `local_free` is `capacity`, at every operation boundary |
| `PageLists.Page.Malloc` | verus-mimalloc/alloc_fast.rs:394-414 | hands out the first free block, which was not out, and counts it; nothing, and no change, if and only if the free list is empty |
| `PageLists.Page.FreeBlock` | verus-mimalloc/free.rs:320-345 | puts the block in front of `free` and counts it back, without underflow |
| `PageLists.Page.ThreadFreeCollect` | verus-mimalloc/alloc_generic.rs:642-685 | the taken list goes in front of `local_free` and is subtracted from `used` |
| `PageLists.Page.FreeCollect` | verus-mimalloc/alloc_generic.rs:596-633 | the two lists become what `Collected` says, and `used` falls by the length of the taken list |
| `PageLists.Page.MoveLocalFree` | verus-mimalloc/alloc_generic.rs:621-632 | `local_free` becomes `free`, or is appended when forced, or stays |
| `PageLists.Page.ExtendFree` | verus-mimalloc/alloc_generic.rs:1054-1145 | carves out the next blocks in address order in front of `free`; nothing when the page is full |
| `PageLists.Page.FreeListExtend` | verus-mimalloc/alloc_generic.rs:691-943 | exactly the next `extend` blocks are added and counted |
| `CommitMasks.CommitMask.AllSet` | verus-mimalloc/commit_mask.rs:468-513 | true if and only if the other set is a subset |
| `CommitMasks.CommitMask.AnySet` | verus-mimalloc/commit_mask.rs:516-530 | true if and only if the sets meet |
| `CommitMasks.CommitMask.CreateIntersect` | verus-mimalloc/commit_mask.rs:533-572 | the intersection |
| `CommitMasks.CommitMask.Clear` | verus-mimalloc/commit_mask.rs:575-617 | the difference |
| `CommitMasks.CommitMask.Set` | verus-mimalloc/commit_mask.rs:620-662 | the union |
| `CommitMasks.CommitMask.Create` | verus-mimalloc/commit_mask.rs:665-915 | exactly the range asked for, across word boundaries |
| `CommitMasks.CommitMask.CreateEmpty` | verus-mimalloc/commit_mask.rs:918-933 | the empty set |
| `CommitMasks.CommitMask.CreateFull` | verus-mimalloc/commit_mask.rs:936-975 | all 512 chunks |
| `CommitMasks.CommitMask.IsEmpty` | verus-mimalloc/commit_mask.rs:1329-1347 | true if and only if the set is empty |
| `CommitMasks.CommitMask.IsFull` | verus-mimalloc/commit_mask.rs:1350-1392 | true if and only if all 512 chunks are set |
| `CommitMasks.CommitMask.NextRun` | verus-mimalloc/commit_mask.rs:984-1326 | the first maximal run of set bits at or after the index, or (512, 0) |
| `CommitMasks.CommitMask.ScanToBit` | verus-mimalloc/commit_mask.rs:992-1047 | the scan skips only clear bits and stops at a set one or past the end |
| `CommitMasks.CommitMask.CountRun` | verus-mimalloc/commit_mask.rs:1056-1230 | the count covers exactly the run, across word boundaries |
| `CommitMasks.CommitMask.CountInWord` | verus-mimalloc/commit_mask.rs:1081-1140 | the inner loop stops at the first clear bit of the word or at its end |
| `CommitMasks.NextRunUnique` | verus-mimalloc/commit_mask.rs:984-990 | the next run is determined by the set and the index |
| `CommitMasks.NextRunEnds` | verus-mimalloc/commit_mask.rs:984-990 | the count is 0 if and only if no bit is left |
| `CommitSegment.SegmentCommitMask` | verus-mimalloc/commit_segment.rs:587-966 | for any request, aligned or not: rounding inward gives exactly the chunks wholly inside it, rounding outward exactly those that meet it, and the returned byte range is exactly theirs |
| `CommitSpec.LiberalCovers` | verus-mimalloc/commit_segment.rs:627-823 | rounding outward covers every requested byte of the segment |
| `CommitSpec.ConservativeWithin` | verus-mimalloc/commit_segment.rs:627-823 | rounding inward touches no byte outside the request |
| `CommitSegment.Segment.SegmentCommitX` | verus-mimalloc/commit_segment.rs:970-1585 | masks, timer and read/write bytes change as the set-level operation says, for success and failure of the operating system |
| `CommitSegment.Segment.constructor` | verus-mimalloc/segment.rs:2959-2981 | a new segment has all chunks committed, or the header's only, nothing scheduled and no timer, and starts in a state from which every run is safe |
| `CommitSegment.Segment.EnsureCommitted` | verus-mimalloc/commit_segment.rs:1931-2057 | equals the set-level operation, with the shortcut for a full segment |
| `CommitSpec.EnsureCommittedMeans` | verus-mimalloc/commit_segment.rs:1015-1022 | after success every requested byte of the segment, aligned or not, is committed, unscheduled, readable and writable |
| `CommitMeaning.CommitMeans` | verus-mimalloc/commit_segment.rs:1200-1262 | committing fails if and only if the operating system refuses and some chunk that the request meets is not committed, and then nothing changes; otherwise exactly the bytes of chunks that the request meets become committed, read/write and unscheduled, every other byte keeps its state, and the timer starts again if and only if a scheduled chunk was met |
| `CommitMeaning.EnsureMeans` | verus-mimalloc/commit_segment.rs:1931-2057 | the same of `segment_ensure_committed`, with or without its shortcut |
| `CommitMeaning.DecommitMeans` | verus-mimalloc/commit_segment.rs:1318-1585 | decommitting never fails: exactly the chunks wholly inside the request stop being committed and scheduled, and they lose read/write exactly when that is allowed and one of them was committed |
| `CommitSpec.CommitXSafe` | verus-mimalloc/commit_segment.rs:1585-1767 | committing anything, and decommitting scheduled chunks, keeps the segment safe |
| `CommitSpec.PerhapsSafe` | verus-mimalloc/commit_segment.rs:2231-2499 | scheduling a range that nobody needs keeps the segment safe, even when it decommits at once |
| `CommitMeaning.PerhapsMeans` | verus-mimalloc/commit_segment.rs:2270-2499 | nothing happens if decommitting is not allowed or no chunk lies wholly inside the request; when the timer is overdue everything scheduled and every committed chunk inside the request is decommitted at once; otherwise exactly those chunks are scheduled, nothing loses read/write, and the timer is a full delay away if it was not set and else one tick past the later of itself and the clock |
| `CommitMeaning.PerhapsByte` | verus-mimalloc/commit_segment.rs:2231-2499 | for every byte: committed memory inside the request is afterwards scheduled or neither committed nor read/write, secure memory outside it stays secure and mapped, what was scheduled stays so or is gone, and read/write is lost only when the timer is overdue |
| `CommitSegment.Segment.PerhapsDecommit` | verus-mimalloc/commit_segment.rs:2231-2499 | equals the set-level operation in every branch of the timer, with 64-bit wrap-around |
| `CommitSegment.Segment.DelayedDecommit` | verus-mimalloc/commit_segment.rs:2501-2641 | equals the set-level operation; the loop ends because each pass shrinks the decommit mask although the index does not pass the run |
| `CommitSegment.Segment.DecommitRun` | verus-mimalloc/commit_segment.rs:2550-2641 | one pass of the loop removes exactly one run from both masks and from the read/write bytes |
| `CommitSpec.DelayedExact` | verus-mimalloc/commit_segment.rs:2520-2641 | when allowed, and forced or due: nothing stays scheduled, exactly the scheduled bytes lose read/write, and exactly the secure bytes stay committed |
| `CommitMeaning.DelayedIdle` | verus-mimalloc/commit_segment.rs:2516-2528 | nothing happens if and only if decommitting is not allowed, nothing is scheduled, or it is neither forced nor due |
| `CommitSpec.SegStepSafe` | verus-mimalloc/commit_segment.rs:970-1034 | each operation keeps decommit within commit within read/write bytes, and header and used bytes committed and unscheduled |
| `CommitSpec.RunSafe` | verus-mimalloc/commit_segment.rs:1703-1767 | so does every run, with any clock, any answers of the operating system and any order |
| `CommitSpec.NeededStaysMapped` | verus-mimalloc/commit_segment.rs:1703-1767 | header bytes and bytes in use are readable and writable in every state of every run |
| `Layout.SegmentPtrIs` | verus-mimalloc/layout.rs:560-641 | masking `ptr - 1` finds a segment if and only if the pointer lies above its start and up to and including its end |
| `Layout.SlicePagePtrIs` | verus-mimalloc/layout.rs:669-780 | dividing by the slice size finds the header of the slice a block starts in |
| `Layout.SubtractOffsetIs` | verus-mimalloc/layout.rs:785-838 | subtracting the stored offset from a slice header gives the header of its page |
| `Layout.PointerRecovery` | verus-mimalloc/free.rs:136-206 | from any block pointer, including one exactly at the segment end, the three calculations find the block's own segment, its slice and, with the stored offset, the header of its page |
| `Layout.SliceInSegment` | verus-mimalloc/layout.rs:79-105 | the slice index is at most 512, and 512 if and only if the block starts at the segment end |
| `Layout.HeadersDistinct` | verus-mimalloc/layout.rs:46-48 | headers of different slices of the same or different segments have different addresses |
| `Layout.PageStartIs` | verus-mimalloc/layout.rs:982-1105 | from a page header the first block of the page is found |
| `Layout.AlignDown` | verus-mimalloc/layout.rs:1111-1175 | the multiple at most `x` and less than `y` below it |
| `Layout.AlignUp` | verus-mimalloc/layout.rs:1179-1275 | the multiple at least `x` and less than `y` above it |
| `Layout.AlignOptimal` | verus-mimalloc/layout.rs:1111-1275 | both roundings are the best possible |
| `MachineWord.PowerOfTwoTest` | verus-mimalloc/layout.rs:1131-1131 | for `y` other than 0, `y & (y - 1)` is 0 if and only if `y` is a power of two whose predecessor has exactly the bits below it |
| `Layout.AlignDownWordIs` | verus-mimalloc/layout.rs:1111-1175 | on 64-bit words, with the program's test and both its branches, rounding down is `AlignDown` |
| `Layout.AlignUpWordIs` | verus-mimalloc/layout.rs:1179-1275 | on 64-bit words, with both branches, rounding up is `AlignUp` whenever `x + y - 1` does not overflow, which the program requires |
| `ProtocolLayout.FreeFindsPage` | verus-mimalloc/free.rs:136-206 | in every run whose pages are laid out in segments, for every block that exists, the address calculations find the header of the page the protocol works on, and of the page any thread freeing the block has |
| `Bins.BinGalois` | verus-mimalloc/bin_sizes.rs:135-173 | for every size that is not huge and every bin, the size's bin is at most that bin if and only if the size fits it |
| `Bins.BinFits` | verus-mimalloc/bin_sizes.rs:748-837 | every size has a valid bin; the bin is the huge one if and only if the size exceeds the largest class; otherwise the bin holds the size and the bin before is too small |
| `Bins.BinMonotone` | verus-mimalloc/bin_sizes.rs:156-173 | larger sizes never have smaller bins |
| `Bins.SizesGrow` | verus-mimalloc/bin_sizes.rs:135-153 | bin sizes grow strictly |
| `Bins.BinInvertsSize` | verus-mimalloc/bin_sizes.rs:497-545 | every bin but the huge one is the bin of its own size |
| `Bins.BinRange` | verus-mimalloc/bin_sizes.rs:176-190 | the word sizes of a bin are exactly those from `pfd_lower` to `pfd_upper` |
| `Bins.HugeBinRange` | verus-mimalloc/bin_sizes.rs:140-147 | for the huge bin that description is right if and only if the word size is at most 524289 |
| `Bins.BinWaste` | verus-mimalloc/bin_sizes.rs:10-46 | blocks of more than 8 words are less than a quarter larger than the request in words |
| `Bins.DirectIndex` | verus-mimalloc/alloc_fast.rs:112-140 | the direct-table slot is in bounds, lies in a bin's range if and only if the size has that bin, and then blocks of that bin are large enough |
| `Bins.SliceBinGalois` | verus-mimalloc/bin_sizes.rs:845-872 | the same connection for slice counts |
| `Bins.SliceBinFits` | verus-mimalloc/bin_sizes.rs:968-1017 | every slice count up to a segment has a valid bin that holds it, and the bin before is too small |
| `Bins.SliceBinMonotone` | verus-mimalloc/bin_sizes.rs:860-872 | larger counts never have smaller bins |
| `Bins.SliceBinInvertsSize` | verus-mimalloc/bin_sizes.rs:845-872 | every slice bin is the bin of its own size |

## Left out

- Weak memory orderings: atomic steps are sequentially consistent.
- Several heaps: one owner thread with one heap; a heap that ends, and segments it abandons, are not modelled.
- `page_retire` and `page_unfull` queue handling: retiring is an owner step allowed whenever `used` is 0, and the queues
  of pages, the full-page flag and the retire timer would only add easy members.
- Page spans, offsets in slice headers and the search for a page with free blocks (`find_page`, `malloc_generic`) are
  taken as given: a page is enabled with a span that is apart from the others, and `ProtocolLayout.FreeFindsPage` takes
  the offsets in slice headers as written.
- Integer widths of counters: `used`, `capacity` and list lengths are unbounded numbers.  They never exceed the number of
  blocks reserved for the page, which the source stores in 16 bits.
- Sums, products and quotients of machine words in `Layout.AlignUpWordIs` and `Layout.AlignDownWordIs` are those of the
  numbers, which is what machine arithmetic gives when it does not overflow.
- `Bins.BinFits`: about the specification form with its huge-bin branch; the executable form has the same formula without
  that branch and is only called for sizes up to 131072 bytes.
- The operating system: committing adds a byte range to the read/write bytes or fails, decommitting removes it; `mmap`,
  `mprotect`, arenas and the rounding to system pages are not modelled.
- Any minimum delay before decommitting: no operation but scheduling and committing sets the timer, and it is not reset
  after a decommit, so what is stated is the value each operation leaves and when a decommit happens at once.
- Pointer provenance and the ghost tokens of the original proof: ownership is part of the model's state.
- Flags, the tables in `init.rs`, `bitmap.rs` (commented out), the C overrides, `realloc`, huge and aligned allocation, and
  the benchmark programs.
