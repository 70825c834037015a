# RT-Thread 4.0.1 in Dafny

A model of the parts of the RT-Thread kernel and of its build tools whose correctness is hard to see, with
proofs. Every file is a Dafny module; `dafny verify dfyconfig.toml` checks the whole project.

* **Lists and heaps.** `LinkedRing` is the circular doubly linked list. `Blocks` describes a region tiled by
  blocks; `MemHeap` (two rings threaded through one pool) and `SmallHeap` (headers inside the heap bytes,
  `Words` and `HeapBytes`) are classes that keep it. `SlabPages` is the page allocator and `SlabZones` the zone
  layer above it. Each heap is sequential under its lock.
* **Timers.** `TimerSpec` is a sorted list over integer time. `TimerRuns` adds runs of ticks, calls and timeout
  functions. A start is three steps there (take the timer off the list, stamp its deadline with interrupts
  enabled, insert it), with ticks and other calls in between; a stop is two. Timeout functions and callers that
  keep interrupts off start a timer in one step. `TimerRows` is the descending search over the rows of a skip list
  with wrapping 32-bit deadlines, for any deadlines. `TimerList` is the skip list; it refines all of these steps as
  long as lateness and longest interval together stay below half the counter range.
* **Threads and inter-thread communication.** `Bitmap` and `Scheduler` are the ready lists with the two-level
  bitmap, with every call one step, as it is for callers that keep interrupts off. `ThreadCalls` takes suspend,
  resume and startup apart into the pieces between which interrupts are enabled. `Mutex`, `Event`, `Mailbox`,
  `MessageQueue` and `QueueWaiters` (the receivers that wait at a message queue) are step machines: every section
  that runs with interrupts disabled is one step, and a blocked call is a suspension, a wake-up and a return, with
  any other step in between. Runs are arbitrary sequences of enabled steps.
* **Build tools.** `KconfigExpr` prints and parses expressions, `KconfigLoop` finds dependency loops,
  `KconfigCache` evaluates symbols and choices through caches with pruned invalidation, `KconfigDeps` builds the
  dependents those rest on, `KconfigChoice` says when loop detection leaves an order of evaluation, `KconfigLaws`
  states what the values obey. `RomFs` writes ROM images and reads them back.

`SortedRow` and `Modular` hold what several modules share. Pure code is modelled by functions, code that updates
state by classes whose methods are proved against functions on values; the properties are lemmas about those
functions. What callers see is stated a second time without the mechanism: mailboxes and message queues against a
bounded queue that the operations alone determine, event sets bit by bit, thread states and inherited priorities
from the operations, values of symbols from the meaning of expressions. Clocks, randomness, thread choice, timeout functions and remaining waiting times are parameters.
Widths are explicit where they matter: 32-bit ticks, sizes and addresses, the 8-bit hold counter, 32-bit masks.

Some promises do not hold on all inputs, and the models say exactly when they do:

* A timer whose start is held up between stamp and insertion for as many ticks as its interval fires late: at the
  deadline if and only if fewer ticks come in between (`TimerRuns.StartThenFires`, `TimerRuns.LateStart`).
* The wrapping comparison can put a late timer at the wrong place. A search is right exactly if every row sees the
  next timer less than half the range later (`TimerList.Timers.Search`). All insertions are right if and only if
  lateness and longest interval together stay below half the range (`TimerList.InsertionsRight`). Beyond that an
  overdue timer may not fire at the next tick (`TimerList.LateStartMisplaced`).
* Stamping a timer that an overlapping start has listed already keeps the order exactly if the new deadline lies
  between those of its neighbours (`TimerSpec.StampKeeps`).
* A one-shot timer restarted by its own timeout function stays armed without its flag (`TimerRuns.FireFlags`,
  `TimerRuns.SelfStart`).
* A thread that is resumed while another resume of it is under way is inserted twice, or is ready on no list
  (`ThreadCalls.StepSound`, `ThreadCalls.ResumedTwice`, `ThreadCalls.ResumedThenUnlinked`).
* The 8-bit hold counter of a mutex wraps at the 256th nested take (`Mutex.TakeKeeps`, `Mutex.HoldWrapsFromFree`).
* Rounding a size up wraps for the largest 32-bit sizes (`MemHeap.RequestCovers`, `SmallHeap.NeedCovers`,
  `SlabZones.LargePagesCover`). The growth test of `rt_memheap_realloc` wraps too, and then the call breaks the
  heap (`MemHeap.GrowGuard`, `MemHeap.Heap.Realloc`, `MemHeap.WrapInput`).
* The search of `rt_malloc` passes over an exact fit at the end of the heap (`SmallHeap.BoundSkipsOnlyExactLast`).
* Shrinking with `rt_realloc` can leave `lfree` above the lowest free block (`SmallHeap.Heap.Shrink`,
  `SmallHeap.ShrinkRun`).
* Loop detection misses that `MODULES` can depend on a tristate symbol, whose type depends on `MODULES`
  (`KconfigDeps.AcyclicIff`, `KconfigDeps.TrapUndetected`).
* Loop detection marks a choice as done without following all ways through it. Whether it finds a loop through two
  symbols of a choice depends on the order of the definitions (`KconfigChoice.RivalsUndetected`), and it never follows
  what looks at a choice from outside (`KconfigChoice.GuestUndetected`). With `MODULES` these are all the loops it
  misses (`KconfigChoice.ChoiceOrderIff`).

## Model

| member | source | states |
|---|---|---|
| `LinkedRing.InsertAfterRing` | include/rtservice.h:58-65 | inserting after any node of a circular doubly linked list gives the ring with the new node at the next position; next and prev stay inverse |
| `LinkedRing.Rotate` | include/rtservice.h:58-92 | a ring may be described from any of its nodes |
| `LinkedRing.InsertBeforeRing` | include/rtservice.h:73-80 | inserting before any node gives the ring with the new node at that node's position; before the head, at the end of the list |
| `LinkedRing.RemoveRing` | include/rtservice.h:86-92 | removal leaves two rings: the list without the node, and the node alone; a node that was alone stays so |
| `LinkedRing.EmptyIffAlone` | include/rtservice.h:98-101 | the one-pointer test says exactly whether the ring is only its head |
| `LinkedRing.DisjointRingKept` | include/rtservice.h:58-92 | insertion before and after a node and removal leave every disjoint ring intact |
| `LinkedRing.Length` | include/rtservice.h:107-118 | walking the ring counts exactly the nodes other than the head |
| `Blocks.AllocEffect` | src/memheap.c:183-258 | handing out a block adds exactly it to the blocks in use; free and used bytes change by exactly what it and a new header take |
| `Blocks.GrantedTight` | src/memheap.c:196-252 | what is handed out holds the request and wastes less than a minimal block with its header; what is split off is at least a minimal block |
| `Blocks.FreeEffect` | src/memheap.c:518-592 | a release takes exactly that block out of use; each merge gives back one header |
| `Blocks.ResizeEffect` | src/memheap.c:420-491 | a resize replaces one block in use by one at the same address and conserves bytes |
| `Blocks.AllocTiled` | src/mem.c:313-379 | splitting keeps the blocks tiling the region with no two free neighbours |
| `Blocks.FreeTiled` | src/mem.c:156-194 | two-sided merging keeps the tiling and leaves no two free neighbours |
| `Blocks.ResizeTiled` | src/mem.c:471-498 | a resize keeps the tiling and the absence of free neighbours |
| `Blocks.Disjoint` | src/memheap.c:50-121 | different blocks, headers included, do not overlap |
| `MemHeap.RequestCovers` | src/memheap.c:147-150 | rounding covers the request if and only if it is at most 2^32 - 4; above that the 32-bit rounding wraps |
| `MemHeap.GrowGuard` | src/memheap.c:350-350 | the 32-bit growth test agrees with the true one exactly when its sum does not wrap or the room is smaller than the wrapped excess |
| `MemHeap.Heap.constructor` | src/memheap.c:50-121 | a new heap is one free block and a used tail, and satisfies the invariant: tiling, both rings, the free ring holding exactly the free blocks, the byte counter |
| `MemHeap.Heap.FirstFit` | src/memheap.c:169-180 | the search returns the first block of the free ring that is large enough, and fails only if no free block is |
| `MemHeap.Heap.Alloc` | src/memheap.c:138-281 | fails exactly when the request is not below the free total or no free block holds it; otherwise it takes the first block of the free ring that holds the request, the live blocks gain exactly one, and the free ring loses that block and gains the remainder; the high-water mark is raised exactly to the new maximum; the invariant is kept |
| `MemHeap.Heap.Free` | src/memheap.c:495-595 | the live blocks lose exactly this one, free neighbours are merged, the free ring is exactly the free blocks again; NULL changes nothing |
| `MemHeap.Heap.Grow` | src/memheap.c:334-402 | growing into the free right neighbour keeps the address, moves the remainder on both rings and keeps the invariant |
| `MemHeap.Heap.Overrun` | src/memheap.c:334-402 | the same assignments for an aligned size above 2^32 - 16: the new header lands inside the block's own, and the fields represent no tiling with any free list |
| `MemHeap.OverrunBreaks` | src/memheap.c:373-388 | no blocks can be laid out along next pointers that lead from a block into its own header |
| `MemHeap.Heap.Shrink` | src/memheap.c:420-491 | shrinking in place splits off the remainder, joins it with a free right neighbour and keeps the invariant |
| `MemHeap.Heap.Enlarge` | src/memheap.c:315-414 | a larger size: in place if and only if the right neighbour is free and the two exceed the request by more than a minimal block; otherwise moved to where an allocation would go, and NULL with nothing changed if and only if that allocation fails; the heap is broken afterwards if and only if the test wraps |
| `MemHeap.Heap.Realloc` | src/memheap.c:284-492 | for every 32-bit size: the heap is broken afterwards if and only if the aligned request is above 2^32 - 16, the right neighbour is free, and the two blocks exceed (request + 12) mod 2^32. Otherwise zero frees, NULL allocates, or exactly one live block is replaced by one large enough, in place whenever the old one suffices, and a failure changes nothing; max_used_size becomes the larger of itself and the highest usage during the call. The result is NULL for a positive size exactly if the block has to move (or p is NULL) and an allocation of the request fails; a block stays where it is exactly if it does not grow or has the room behind it |
| `MemHeap.WrapInput` | src/memheap.c:350-350 | a heap of 124 bytes in which 2^32 - 12 wraps while 2^32 - 16 and 2^32 - 3 do not |
| `MemHeap.WrapRun` | src/memheap.c:284-402 | the calls that lead there: a new heap, one allocation and that resize leave a broken heap |
| `HeapBytes.GetPut` | src/mem.c:95-115 | a block header written into the heap bytes reads back unchanged |
| `HeapBytes.GetPutOther` | src/mem.c:95-115 | writing one header changes no header that does not overlap it |
| `HeapBytes.Ram.Copy` | src/mem.c:501-507 | copying between disjoint ranges moves exactly those bytes |
| `SmallHeap.NeedCovers` | src/mem.c:288-300 | the rounded request covers the wanted size if and only if that is at most 2^32 - 4 |
| `SmallHeap.BoundSkipsOnlyExactLast` | src/mem.c:305-311 | the strict loop bound passes over exactly one kind of fitting free block: an exact fit at the end of the heap |
| `SmallHeap.NothingFits` | src/mem.c:305-311 | with lfree the lowest free block, a search that finds nothing means that no free block anywhere can hold the request but for that exact fit, and conversely |
| `SmallHeap.PlugIsFree` | src/mem.c:156-194 | joining right and then left is the merge of the abstract block list |
| `SmallHeap.CutThenPlug` | src/mem.c:471-498 | cutting a used block and plugging the hole behind it is a resize of the abstract block list |
| `SmallHeap.PayloadWrite` | src/mem.c:95-115 | bytes written inside one payload disturb no header and no other payload |
| `SmallHeap.Heap.constructor` | src/mem.c:204-257 | the initial heap bytes hold one free block and heap_end; lfree is the lowest free block |
| `SmallHeap.Heap.Search` | src/mem.c:305-311 | the search stops at the first fitting block from lfree on, or shows that none fits; offsets grow, so it ends |
| `SmallHeap.Heap.Malloc` | src/mem.c:272-410 | NULL exactly for size 0, a request beyond the heap, or no fitting block from lfree on; with lfree the lowest free block, exactly if no free block holds the request but for an exact fit at the end. Otherwise one block is added to those in use, no payload byte of any other live block changes, used_mem stays the span of the used blocks, max_mem its maximum, lfree stays lowest if it was |
| `SmallHeap.Heap.PlugHoles` | src/mem.c:156-194 | the stored headers become those of the merged block list, payloads of live blocks are untouched, lfree moves only off a header that vanishes |
| `SmallHeap.Heap.Free` | src/mem.c:546-609 | exactly this block leaves use and is merged; other payloads are untouched; lfree falls to it when lower and stays lowest if it was; a pointer outside the heap is ignored |
| `SmallHeap.Heap.Shrink` | src/mem.c:471-498 | shrinking keeps the payload that remains; lfree stays the lowest free block if and only if it lay below the shrunk block or was its right neighbour |
| `SmallHeap.ReleaseLfree` | src/mem.c:590-605 | after a release lfree is the header of a free block, and the lowest one if it was that before |
| `SmallHeap.ShrinkLfree` | src/mem.c:471-498 | after a shrink lfree is still a free header or heap_end; it stays the lowest if and only if it lay below the block or was its right neighbour |
| `SmallHeap.ShrinkRun` | src/mem.c:471-498 | two allocations and a shrink of the first leave lfree above a free block |
| `SmallHeap.Heap.Move` | src/mem.c:501-509 | fails exactly if no free block from lfree on fits; otherwise the replacement is where malloc would put it and starts with the same bytes, all other payloads are untouched, and max_mem counts both blocks |
| `SmallHeap.Heap.Resize` | src/mem.c:461-509 | a block stays where it is, with exactly the new size, if and only if its size is the new one or leaves room for another block behind it; otherwise it moves, and the result is NULL if and only if no free block from lfree on fits |
| `SmallHeap.Heap.Realloc` | src/mem.c:421-510 | the result starts with the first min(old, new) bytes of the old block; exactly that block is replaced; a failure changes nothing; max_mem is raised exactly by a move or an allocation, to the usage with both blocks; lfree stays lowest unless the block shrinks with lfree neither below it nor its right neighbour. For sizes that the heap can hold, the result is NULL exactly if the block has to move (or p is NULL) and no free block from lfree on fits; with lfree lowest, exactly if no free block holds the request but for an exact fit at the end |
| `SlabPages.TakeKeeps` | src/slab.c:236-270 | taking pages keeps the list canonical and removes exactly those pages |
| `SlabPages.FreeKeeps` | src/slab.c:272-322 | giving pages back keeps the list canonical and adds exactly those pages |
| `SlabPages.CanonicalUnique` | src/slab.c:272-322 | two canonical lists of the same pages are the same list |
| `SlabPages.TakeThenFree` | src/slab.c:236-322 | allocating and freeing restores the identical list |
| `SlabPages.FreeCommutes` | src/slab.c:272-322 | the order of two releases does not matter |
| `SlabPages.AllFreeIsOneRun` | src/slab.c:327-334 | once all pages are back the list is a single run |
| `SlabPages.RoomIffRun` | src/slab.c:246-262 | some run serves a request if and only if enough consecutive pages are free |
| `SlabPages.PageList.Alloc` | src/slab.c:236-270 | the front of the first run long enough; fails exactly when there is none or no page is asked for |
| `SlabPages.PageList.Free` | src/slab.c:272-322 | the walk over the list computes the canonical list with the pages added |
| `SlabZones.ClassIsLeast` | src/slab.c:401-459 | a size below 16 KiB gets the smallest class whose chunks hold it, and the index determines the chunk size |
| `SlabZones.TakeChunkCounts` | src/slab.c:541-568 | a zone with z_nfree > 0 has a chunk nobody holds; z_nfree stays (z_nmax - 1 - z_uindex) plus the length of z_freechunk |
| `SlabZones.GiveChunkCounts` | src/slab.c:830-842 | returning a chunk keeps the count and takes exactly that chunk out of use |
| `SlabZones.FullIffNoneOut` | src/slab.c:854-855 | z_nfree reaches z_nmax exactly when no chunk is handed out |
| `SlabZones.ChunksApart` | src/slab.c:628-648 | different chunks are disjoint and lie inside the zone behind its header |
| `SlabZones.LookupFindsZone` | src/slab.c:825-828 | memusage leads from any chunk address to its zone and chunk |
| `SlabZones.NewZoneFits` | src/slab.c:625-648 | a new zone has room for all its chunks |
| `SlabZones.ChunkStartAligned` | src/slab.c:629-638 | chunks start as early behind the header as their alignment allows: a multiple of their size if that is a power of two, otherwise of eight |
| `SlabZones.TakeStepSound` | src/slab.c:539-577 | allocation from a zone keeps the invariant: counts, list membership iff z_nfree > 0, disjoint zones, usage table |
| `SlabZones.GiveStepSound` | src/slab.c:831-846 | a release keeps the invariant and puts a full zone back on the list of its class |
| `SlabZones.RetireStepSound` | src/slab.c:854-874 | an entirely free zone moves to zone_free with the invariant kept |
| `SlabZones.ReleaseStepSound` | src/slab.c:877-899 | a surplus idle zone leaves, the usage entries of exactly its pages become free, and the invariant is kept |
| `SlabZones.LargePagesCover` | src/slab.c:493-498 | the rounded page count covers the size if and only if it is at most 2^32 minus a page |
| `SlabZones.Slab.MallocSmall` | src/slab.c:534-659 | a chunk of exactly the smallest class that holds the size, which nobody held, all others kept; fails exactly when the class has no chunk, no zone is idle and no run of pages is long enough; no page of the heap is lost: each is on the page list, in a zone or in a large block |
| `SlabZones.Slab.MallocLarge` | src/slab.c:493-521 | whole pages that belonged to nobody; fails exactly when the rounded count is zero or no run is long enough; no page is lost |
| `SlabZones.Slab.FreeSmall` | src/slab.c:822-904 | exactly this chunk is returned; the zone goes back on its list, to zone_free, or to the page allocator, with at most two idle zones; no page is lost |
| `SlabZones.Slab.FreeLarge` | src/slab.c:795-820 | exactly the pages of the block return to the page list; no page is lost |
| `SlabZones.Slab.Malloc` | src/slab.c:478-659 | the dispatch on the size: what is returned belonged to nobody and everything allocated stays so; NULL exactly for size 0, for whole pages when no run is long enough, and for a chunk when its class has none, no zone is idle and no run of pages is long enough; every page of the heap stays on the page list, in a zone or in a large block |
| `SlabZones.Slab.FreeIt` | src/slab.c:771-904 | the usage table tells a large block from a chunk, and exactly that one is released |
| `SortedRow.InsertKeeps` | src/ipc.c:79-120 | stable insertion keeps a row sorted and without duplicates and adds exactly one element |
| `SortedRow.EnqueueJoins` | src/ipc.c:79-120 | who has to wait joins the end of a first-come list, or of a priority list the place behind all who are at least as urgent and before all others |
| `SortedRow.RekeyedSorted` | src/timer.c:324-324 | a new key for one element keeps a sorted row sorted if and only if it lies between the keys of its neighbours |
| `TimerSpec.ApplyKeeps` | src/timer.c:296-480 | a start, stop or change of interval with interrupts off keeps the list sorted by integer deadline and makes no timer due at once |
| `TimerSpec.UnlinkKeeps` | src/timer.c:310-315 | the first section of a start takes out exactly the timer and keeps the order |
| `TimerSpec.StampKeeps` | src/timer.c:324-324 | stamping keeps the list sorted if and only if the timer is not listed or its new deadline lies between those of its neighbours |
| `TimerSpec.ArmKeeps` | src/timer.c:327-396 | insertion at the place behind all timers due no later keeps the list sorted and without duplicates if and only if the timer is not listed already; the timer may be due at once. The code inserts there exactly under `TimerRows.RightPlace` (`TimerList.Timers.ArmIt`), always if lateness and longest interval together stay below half the counter range |
| `TimerSpec.OverdueIsNew` | src/timer.c:327-396 | between ticks a listed timer is due only if it was inserted since the last tick, and then fires at the next check. The code does so as long as lateness and longest interval together stay below half the counter range (`TimerList.Timers.Play`) |
| `TimerSpec.DrainKeeps` | src/timer.c:494-553 | after a check no due timer is listed; everything fired had this tick as its time to fire, the later of its deadline and the tick after its insertion, in deadline order |
| `TimerRuns.StepKeeps` | src/timer.c:296-480 | every tick, call and section of a call keeps this |
| `TimerRuns.RunKeeps` | src/clock.c:74-100 | in every interleaving of ticks, calls and sections of calls all firings are at max(deadline, insertion + 1), in time order and in deadline order within a tick; a due timer stays listed between ticks only if it was inserted since the last. The code does so as long as lateness and longest interval together stay below half the counter range (`TimerList.Timers.Play`) |
| `TimerRuns.OneShotFiresOnce` | src/timer.c:494-553 | a one-shot timer left alone fires exactly once, at max(deadline, insertion + 1), and is then disarmed |
| `TimerRuns.PeriodicFiresEvery` | src/timer.c:532-538 | a periodic timer left alone fires when its time comes and then once per period, over any number of ticks |
| `TimerRuns.StartedPhase` | src/timer.c:296-396 | the three sections of a start, with anything that leaves the timer alone in between, list it with the deadline of the stamp and the tick of the insertion |
| `TimerRuns.StartThenFires` | src/timer.c:323-396 | stamped at s with interval d and left alone, a one-shot timer fires exactly once: at s + d if and only if fewer than d ticks fall between stamp and insertion, otherwise at the first check after the insertion. The code does so as long as lateness and longest interval together stay below half the counter range (`TimerList.Timers.PlayStart`) |
| `TimerRuns.StartThenFiresEvery` | src/timer.c:323-396 | the same for the first firing of a periodic timer, and then every d ticks, within the same bound (`TimerList.Timers.PlayStartEvery`) |
| `TimerRuns.StartAtOnce` | src/timer.c:296-396 | with nothing in between, the three sections are the start in one step |
| `TimerRuns.StartAtOnceFires` | src/ipc.c:1199-1205 | started with interrupts off, a one-shot timer fires exactly at s + d |
| `TimerRuns.SetThenFires` | src/ipc.c:1199-1205 | with its interval set to d and then started, as every blocking call does with its thread's timer, it fires exactly d ticks later |
| `TimerRuns.LateStart` | src/timer.c:323-396 | an interval of one tick with a tick between stamp and insertion: the timer is listed when it is due, and fires at s + 2 |
| `TimerRuns.StopThenSilent` | src/timer.c:435-444 | once the section of a stop has taken the timer off the list it does not fire, whatever happens before its flag is cleared |
| `TimerRuns.UnlistedStays` | src/timer.c:494-553 | a timer that is not armed never fires |
| `TimerRuns.ApplyAllFlags` | src/timer.c:523-523 | after the operations of a timeout function a timer is listed exactly if the last start or stop of it among them is a start |
| `TimerRuns.FireFlags` | src/timer.c:520-543 | a firing keeps every ACTIVATED flag in step with the list if and only if the timer is periodic or the operations of its timeout function do not leave it started |
| `TimerRuns.SelfStart` | src/timer.c:520-543 | a one-shot timer whose timeout function starts it is listed without its flag, and stopping it has no effect |
| `TimerRows.WrapCompare` | src/timer.c:359-366 | the wrapping 32-bit tests are the true comparisons if and only if the first deadline is less than half the counter range after the second and at most half of it before |
| `TimerRows.UnderInsert` | src/timer.c:342-391 | inserting into a row and its shortcut, or into the row only, keeps the shortcut a subsequence of the row |
| `TimerRows.InsertedOk` | src/timer.c:376-391 | whatever height the counter gives, all rows stay sorted subsequences of the row below and the bottom row is the stable insertion |
| `TimerRows.RedatedOk` | src/timer.c:324-324 | a new deadline keeps all rows in order if and only if it fits between the neighbours in the last row |
| `TimerRows.TrackEnds` | src/timer.c:342-370 | where the descending search ends, for all deadlines less than the counter range apart: at the right place of the last row if and only if every row sees its next timer less than half the range later and, if some timer is more than half the range behind, some row leads past all such timers; then right in all rows, otherwise too far or in front of a timer far behind |
| `TimerList.InsertionsRight` | src/timer.c:327-370 | for all intervals up to `reach` and all latenesses up to `late`: every insertion finds the right place if and only if reach + late is less than half the counter range |
| `TimerList.Timers.constructor` | src/timer.c:80-105 | an empty list of any number of rows satisfies the invariant |
| `TimerList.Timers.Unlink` | src/timer.c:121-129 | the timer leaves every row, and the rows stay shortcuts of each other |
| `TimerList.Timers.Search` | src/timer.c:342-370 | for all deadlines less than the counter range away, the loop over the rows ends in the last row behind all timers due no later if and only if RightPlace holds, and then does so in every row |
| `TimerList.Timers.Link` | src/timer.c:376-391 | the bottom row becomes the stable insertion and the upper rows stay subsequences, for every counter value and mask; the timer is in as many further rows as the counter has zero groups of bits |
| `TimerList.Timers.TakeOff` | src/timer.c:310-315 | the first section of a start refines taking the timer off the sorted list |
| `TimerList.Timers.StampIt` | src/timer.c:324-324 | the wrapped deadline refines the integer one, also for a listed timer whose new deadline fits |
| `TimerList.Timers.ArmIt` | src/timer.c:327-396 | the last section leaves the list in order, and does what insertion into the sorted list does, if and only if RightPlace holds; up to `late` ticks after the deadline, where `late` and the longest interval together stay below half the range, it always does |
| `TimerList.Timers.Start` | src/timer.c:296-396 | the three in a row do what the start over integer time does |
| `TimerList.Timers.SetTime` | src/timer.c:471-473 | the interval becomes the given one, and this refines the change over integer time |
| `TimerList.Timers.Stop` | src/timer.c:422-447 | likewise for stop, with its error result |
| `TimerList.Timers.FireHead` | src/timer.c:516-543 | one round of the check refines one firing of the sorted list |
| `TimerList.Timers.Check` | src/timer.c:494-553 | the drain loop with the wrapping test refines the drain over integer time, and ends |
| `TimerList.Timers.Increase` | src/clock.c:74-100 | one tick of the wrapping counter refines one tick of integer time |
| `TimerList.Timers.Play` | src/clock.c:74-100 | any run of ticks, calls and sections of calls of the skip list with its wrapping counter, in which lateness and longest interval together stay below half the counter range, is the run over integer time, so all that is proved of those runs holds of it |
| `TimerList.Timers.PlayStart` | src/timer.c:323-396 | within that bound the skip list fires a one-shot timer, stamped at s and left alone, exactly once: at s + d if fewer than d ticks fall between stamp and insertion, otherwise at the first check after the insertion |
| `TimerList.Timers.PlayStartEvery` | src/timer.c:323-396 | the same for the first firing of a periodic timer, and then every d ticks |
| `TimerList.LateStartMisplaced` | src/timer.c:359-366 | a run of the skip list, for every counter value and mask: a timer with interval 1 whose start is held up one tick more than its interval, during which a timer of the longest interval is started, goes behind that one; the next tick, at which it is to fire, does not fire it |
| `Bitmap.LowestIsFirst` | src/kservice.c:1248-1267 | the table gives the lowest set bit of every non-zero byte |
| `Bitmap.FfsIsFirst` | src/kservice.c:1278-1292 | the result is one more than the lowest set bit, and 0 only for 0 |
| `Bitmap.FillAgrees` | src/scheduler.c:670-681 | setting the two masks keeps the bitmap in agreement with the lists when a list gets a thread |
| `Bitmap.DrainAgrees` | src/scheduler.c:762-776 | clearing the two masks keeps it in agreement when a list becomes empty |
| `Bitmap.TopIsLeast` | src/scheduler.c:170-192 | the two-level lookup finds the most urgent non-empty list; the group word is zero exactly when all lists are empty |
| `Scheduler.PushSound` | src/scheduler.c:652-686 | insertion keeps: ready threads are exactly the listed ones, once each and at their priority; only the current thread runs |
| `Scheduler.SuspendSound` | src/thread.c:655-694 | suspending keeps this |
| `Scheduler.ChangeSound` | src/thread.c:570-611 | changing a priority keeps this |
| `Scheduler.SwitchSound` | src/scheduler.c:432-447 | switching threads keeps this |
| `Scheduler.DispatchUrgent` | src/scheduler.c:399-499 | the scheduler changes no priority, starts and stops nobody, and leaves running a thread no less urgent than any runnable one |
| `Scheduler.DispatchRotates` | src/scheduler.c:399-499 | with equal top priorities the running thread goes to the end of the ring |
| `Scheduler.RoundRobin` | src/scheduler.c:399-499 | the k-th call runs thread k modulo the size of the ring, whose threads are distinct: each runs once per cycle |
| `Scheduler.UnlinkExact` | src/thread.c:722-731 | the first section of a resume keeps the invariant if and only if the thread is not ready |
| `Scheduler.InsertExact` | src/thread.c:733-734 | the second section, which does not test the thread, keeps it if and only if the thread is not ready |
| `Scheduler.UnlinkAgrees` | src/thread.c:722-731 | taking a thread off its list by hand leaves the bitmap right exactly if it is not the only ready thread of its priority |
| `Scheduler.StepSound` | src/thread.c:286-769 | every call with interrupts off keeps the invariant |
| `Scheduler.RunUrgent` | src/thread.c:286-769 | in every state reached by such calls a call of the scheduler runs a most urgent thread |
| `Scheduler.RunLives` | src/thread.c:286-769 | in every run each thread is started, awake and at the priority that the operations alone say: startups, suspends, resumes, timeouts and changes of priority |
| `Scheduler.DispatchFirst` | src/scheduler.c:399-499 | a switch runs the thread that has been first in the list of the most urgent priority and leaves the others of the list in turn |
| `ThreadCalls.SuspendAlways` | src/thread.c:674-689 | the section of a suspend keeps the invariant whatever has happened to the thread since its state was tested |
| `ThreadCalls.StepSound` | src/thread.c:655-738 | a piece of a suspend, resume or startup, or a whole call, keeps the invariant if and only if it is not a section of a resume that finds its thread ready |
| `ThreadCalls.StepStat` | src/thread.c:655-769 | a suspended thread stays suspended until a step resumes, times out or starts it |
| `ThreadCalls.RunSound` | src/thread.c:655-769 | over every interleaving in which no such section occurs the invariant holds, and the scheduler runs a most urgent thread |
| `ThreadCalls.OwnedKeeps` | src/thread.c:704-738 | if no other resume of its thread comes in between, both sections of a resume find it suspended |
| `ThreadCalls.ExclusiveSound` | src/thread.c:704-738 | hence runs in which no thread is resumed while another resume of it is under way keep the invariant |
| `ThreadCalls.ResumeAtOnce` | src/thread.c:704-738 | with nothing in between, the test and the two sections are the resume in one step |
| `ThreadCalls.SuspendAtOnce` | src/thread.c:655-694 | the same for a suspend |
| `ThreadCalls.StartAtOnce` | src/thread.c:286-318 | the same for a startup: preparation, the pieces of a resume, and the scheduler |
| `ThreadCalls.ResumedTwice` | src/thread.c:731-734 | a resume between the two sections of another puts the thread on its ready list twice |
| `ThreadCalls.ResumedThenUnlinked` | src/thread.c:714-731 | a resume between test and first section leaves the thread ready on no list |
| `Scheduler.System.InsertThread` | src/scheduler.c:652-686 | lists, table and group word stay in agreement |
| `Scheduler.System.RemoveThread` | src/scheduler.c:749-779 | likewise, clearing the group bit only with the last byte bit |
| `Scheduler.System.Schedule` | src/scheduler.c:399-499 | choice through the bitmap refines choice by the least non-empty list; a locked scheduler does nothing |
| `Scheduler.System.SuspendIt` | src/thread.c:655-694 | with interrupts off: refines suspension; fails exactly for a thread that is neither ready nor running |
| `Scheduler.System.UnlinkIt` | src/thread.c:722-731 | the first section of a resume; lists, states and bitmap stay in step if and only if the thread is not ready, the bitmap alone if and only if it is not the only one of its priority |
| `Scheduler.System.InsertIt` | src/thread.c:733-734 | the second section; the bitmap stays right in every case, lists and states if and only if the thread was not ready |
| `Scheduler.System.ResumeIt` | src/thread.c:704-738 | with interrupts off: refines resumption; fails exactly for a thread that is not suspended |
| `Scheduler.System.TimeoutIt` | src/thread.c:747-769 | refines the timeout of a suspended thread |
| `Scheduler.System.StartupIt` | src/thread.c:286-318 | with interrupts off: refines the start of a thread |
| `Scheduler.System.Reprioritise` | src/thread.c:570-611 | refines the change of priority, with masks recomputed |
| `Mutex.TakeKeeps` | src/ipc.c:651-776 | a take keeps the invariant if and only if it is not the owner taking with hold at 255 |
| `Mutex.ReleaseKeeps` | src/ipc.c:787-878 | a release keeps it, across hand-over |
| `Mutex.ExpireKeeps` | src/thread.c:747-769 | a timeout keeps it |
| `Mutex.ReturnKeeps` | src/ipc.c:749-768 | a woken thread that returns keeps it |
| `Mutex.StepKeeps` | src/ipc.c:651-878 | every step keeps value = 1 iff no owner iff hold = 0, sorted waiters only while owned, the owner at least as urgent as every waiter, if and only if it is not the overflowing take |
| `Mutex.RunKeeps` | src/ipc.c:651-878 | hence in every run |
| `Mutex.Inherits` | src/ipc.c:718-726 | over any run in which a thread keeps the mutex, its priority is exactly the most urgent of what it had and of all who had to wait for it since, from their own priorities and the operations alone |
| `Mutex.StartsOwn` | src/ipc.c:689-699 | whoever gets the mutex, free or by hand-over, has its own priority |
| `Mutex.BlockKeeps` | src/ipc.c:710-747 | a take that has to wait keeps the invariant and joins the wait list behind all who are at least as urgent |
| `Mutex.Exclusion` | src/ipc.c:651-878 | at most one thread is between a successful take and its last release, and it inherits the urgency of every waiter |
| `Mutex.WakesAsOwner` | src/ipc.c:749-768 | a blocked take returns RT_EOK exactly to the owner, holding once |
| `Mutex.LastRelease` | src/ipc.c:825-868 | the last release restores the acquisition priority and frees the mutex, with original_priority 0xff, or passes it to the first waiter |
| `Mutex.HoldWraps` | src/ipc.c:678-682 | the take at hold 255 leaves the mutex owned with hold 0 |
| `Mutex.NestedTakes` | src/ipc.c:678-703 | up to 255 nested takes count up |
| `Mutex.HoldWrapsFromFree` | src/ipc.c:678-703 | 255 takes of a free mutex by one thread are fine; the next breaks the invariant with hold 0, and the release after it leaves hold 255 |
| `Mutex.Lock.SuspendByPriority` | src/ipc.c:79-120 | the search loop is stable insertion by priority |
| `Mutex.Lock.TakeIt` | src/ipc.c:651-747 | refines the take step; blocks exactly if another thread owns the mutex and there is a waiting time, otherwise the result, with the exact cause of a timeout |
| `Mutex.Lock.ReleaseIt` | src/ipc.c:787-878 | refines the release step; an error exactly for a thread that is not the owner |
| `Mutex.Lock.ReturnIt` | src/ipc.c:749-768 | the result is RT_EOK exactly for the owner |
| `Event.DeliverIsReceive` | src/ipc.c:1060-1089 | a thread that waited gets the bits, and leaves the set, that an immediate receive would |
| `Event.MetBits` | src/ipc.c:1058-1076 | the AND condition is that every bit asked for is set, the OR condition that one is |
| `Event.WalkQuiet` | src/ipc.c:1051-1098 | after the walk no thread left has its condition met although bits are cleared on the way; each thread woken was served from the set as it stood at its turn |
| `Event.SendKeeps` | src/ipc.c:1026-1108 | sending keeps: no waiting thread is satisfied; a woken one holds exactly requested & set at delivery |
| `Event.SendBits` | src/ipc.c:1047-1089 | bit by bit: after a send a bit is set if and only if it was set or is sent, and no thread that the send woke with `clear` got it |
| `Event.SendServes` | src/ipc.c:1051-1098 | for every place in the wait list: the thread there finds the bits that were set or are sent, less those that threads before it got with `clear`; it is woken if and only if they meet its condition, and then holds those of them it asked for |
| `Event.FirstServed` | src/ipc.c:1051-1098 | in particular the first waiter is served from the old set together with what is sent |
| `Event.RecvBits` | src/ipc.c:1155-1184 | requested bits leave the set if and only if the condition is met and `clear` is given |
| `Event.RecvKeeps` | src/ipc.c:1124-1234 | receiving keeps this, on the immediate, the timeout and the blocking path |
| `Event.ResetKeeps` | src/ipc.c:1254-1271 | a reset clears the set, keeps this and wakes every waiter with an error |
| `Event.ReturnKeeps` | src/ipc.c:1214-1226 | a blocked receive without error returns requested & set at delivery, which met its condition |
| `Event.RunQuiet` | src/ipc.c:1026-1271 | between any two operations of any run no waiting thread is satisfied |
| `Event.RunAsked` | src/ipc.c:1026-1234 | over any run a receive that had to wait and returns without error gets exactly those bits it asked for in its call that were set when it was served, and they met the condition of its call |
| `Event.EventSet.WalkList` | src/ipc.c:1051-1098 | the loop that walks, clears and resumes computes the walk |
| `Event.EventSet.SendIt` | src/ipc.c:1026-1108 | refines sending; an empty set is refused |
| `Event.EventSet.RecvIt` | src/ipc.c:1124-1209 | refines receiving, AND before OR, with its results; a call that blocks waits for what it asked for |
| `Event.EventSet.ResetIt` | src/ipc.c:1254-1271 | the resume loop refines the reset |
| `Mailbox.InOffset` | src/ipc.c:1532-1539 | in_offset is (out_offset + entry) modulo the size |
| `Mailbox.PutFifo` | src/ipc.c:1532-1539 | storing appends to the queue |
| `Mailbox.GetFifo` | src/ipc.c:1680-1688 | fetching takes the oldest mail |
| `Mailbox.SendKeeps` | src/ipc.c:1439-1558 | a send, first try or resumed, keeps queue contents and loses no wake-up |
| `Mailbox.RecvKeeps` | src/ipc.c:1587-1711 | a receive likewise |
| `Mailbox.ExpireKeeps` | src/thread.c:747-769 | a timeout loses no wake-up, and its thread returns RT_ETIMEOUT |
| `Mailbox.ResetKeeps` | src/ipc.c:1731-1752 | a reset empties the box and tells every waiting thread |
| `Mailbox.RunKeeps` | src/ipc.c:1439-1752 | in every run mails come out in the order they went in, and while receivers (senders) wait the mails (free slots) are matched by threads woken and still to run |
| `Mailbox.RunIsQueue` | src/ipc.c:1439-1752 | over any run the box is a bounded queue that the operations alone determine: every mail that goes in is the one its thread last asked to send, however often the thread had to wait again, and every mail that comes out is the oldest |
| `Mailbox.WokenInTurn` | src/ipc.c:130-147 | whoever an operation wakes stood first in its wait list, and nobody in a priority list is more urgent |
| `Mailbox.BlockedInTurn` | src/ipc.c:79-120 | whoever an operation makes wait joins its wait list in turn |
| `Mailbox.Box.Store` | src/ipc.c:1532-1544 | the ring update refines appending |
| `Mailbox.Box.Fetch` | src/ipc.c:1680-1693 | the ring update refines taking the oldest |
| `Mailbox.Box.SendWait` | src/ipc.c:1439-1558 | refines the send step; blocks exactly when full with a waiting time, and then waits with this mail; RT_EFULL exactly when full without; otherwise the mail goes in |
| `Mailbox.Box.RecvWait` | src/ipc.c:1587-1711 | refines the receive step; blocks or times out exactly when empty |
| `Mailbox.Box.ContinueSend` | src/ipc.c:1509-1544 | a woken sender that tests again keeps the invariant; it blocks again exactly when the box is full and time is left, and otherwise stores its mail or returns RT_EFULL |
| `Mailbox.Box.ContinueRecv` | src/ipc.c:1657-1693 | a woken receiver that tests again keeps the invariant; it blocks again exactly when the box is empty and time is left |
| `MessageQueue.GrabKeeps` | src/ipc.c:1978-1995 | taking a free node keeps the partition; nothing happens exactly when none is free |
| `MessageQueue.FillKeeps` | src/ipc.c:1997-2000 | work on a held node touches no other and marks the node as filled |
| `MessageQueue.LinkKeeps` | src/ipc.c:2002-2018 | an ordinary message joins at the back, an urgent one at the front |
| `MessageQueue.TakeKeeps` | src/ipc.c:2235-2248 | a receiver gets the first message, whose bytes are in the node it holds |
| `MessageQueue.GiveBackKeeps` | src/ipc.c:2253-2259 | the node returns to the free list |
| `MessageQueue.ResetKeeps` | src/ipc.c:2286-2320 | a reset frees exactly the queued nodes, in reverse order, and leaves held ones alone |
| `MessageQueue.DeliveredMessage` | src/ipc.c:2250-2251 | the receiver's buffer starts with the sender's message, as far as it fits |
| `MessageQueue.StepKeeps` | src/ipc.c:1961-2319 | every section keeps the partition of the nodes, entry, the pointers, and refines a deque |
| `MessageQueue.StepNodes` | src/ipc.c:1961-2319 | no section loses or makes a node |
| `MessageQueue.RunKeeps` | src/ipc.c:1961-2319 | in every interleaving nodes stay partitioned and conserved, entry is the queue length, head is null iff tail is, and messages and calls under way are those of a bounded deque that the operations alone determine: every message is linked as its sender gave it, urgent ones in front, and taken out first to last |
| `MessageQueue.Queue.constructor` | src/ipc.c:1778-1825 | all nodes start on the free list |
| `MessageQueue.Queue.GrabIt` | src/ipc.c:1978-1995 | refines taking a free node; NULL exactly when none is free |
| `MessageQueue.Queue.LinkBackIt` | src/ipc.c:2002-2018 | the pointer updates append to the queue |
| `MessageQueue.Queue.LinkFrontIt` | src/ipc.c:2090-2102 | the pointer updates prepend to the queue |
| `MessageQueue.Queue.TakeIt` | src/ipc.c:2235-2248 | the pointer updates take the first node |
| `MessageQueue.Queue.GiveBackIt` | src/ipc.c:2250-2259 | the copy delivers the message and the node is freed |
| `MessageQueue.Queue.ResetIt` | src/ipc.c:2286-2320 | the loop refines the reset |
| `QueueWaiters.LinkKeeps` | src/ipc.c:2020-2027 | linking a message resumes the first waiting receiver and keeps: while receivers wait, the messages are matched by receivers resumed and still to run |
| `QueueWaiters.RecvKeeps` | src/ipc.c:2158-2248 | a receive, first try or resumed, keeps this |
| `QueueWaiters.ExpireKeeps` | src/thread.c:747-769 | a timeout keeps this |
| `QueueWaiters.ResetKeeps` | src/ipc.c:2286-2320 | a reset keeps this and tells every waiting receiver |
| `QueueWaiters.RunKeeps` | src/ipc.c:1961-2319 | in every run no wake-up is lost: with nobody resumed and still to run, no receiver waits at a queue that holds a message |
| `QueueWaiters.RunIsDeque` | src/ipc.c:1961-2319 | over any run messages and calls under way are those of that deque: a receiver that had to wait, however often, takes the first message there is when it runs |
| `QueueWaiters.WokenInTurn` | src/ipc.c:130-147 | whoever is resumed stood first in the wait list, and nobody in a priority list is more urgent |
| `QueueWaiters.BlockedInTurn` | src/ipc.c:79-120 | whoever has to wait joins the wait list in turn |
| `QueueWaiters.WaitQueue.LinkIt` | src/ipc.c:2002-2035 | the last section of a send refines linking and resuming |
| `QueueWaiters.WaitQueue.RecvWait` | src/ipc.c:2158-2248 | refines the receive step; blocks or times out exactly when the queue is empty, otherwise holds the first message |
| `QueueWaiters.WaitQueue.ContinueRecv` | src/ipc.c:2207-2248 | a resumed receiver that tests again refines its step; it blocks again exactly when the queue is empty and time is left, and otherwise holds the first message |
| `QueueWaiters.WaitQueue.ResetIt` | src/ipc.c:2286-2320 | refines the reset |
| `KconfigExpr.RightValue` | tools/kconfiglib.py:4986-5041 | re-associating chains does not change expr_value under any assignment |
| `KconfigExpr.ExprRound` | tools/kconfiglib.py:2737-2821 | the parser reads the tokens of a printed expression and stops at what follows |
| `KconfigExpr.RoundTrip` | tools/kconfiglib.py:5059-5100 | parsing the tokens of expr_str(e) uses all of them and gives the right-associated form of e, with the same value under every assignment; with transform_m, that form with m replaced by m && MODULES |
| `KconfigExpr.RightStable` | tools/kconfiglib.py:5059-5100 | a second round trip changes nothing more |
| `KconfigExpr.TransformExpr` | tools/kconfiglib.py:2789-2807 | on every token sequence, malformed ones included, transform_m replaces m outside relations by m && MODULES and changes nothing else |
| `KconfigExpr.TransformValue` | tools/kconfiglib.py:2789-2807 | then m is worth the lesser of m and MODULES |
| `KconfigExpr.MakeAndValue` | tools/kconfiglib.py:2240-2252 | _make_and simplifies without changing the value |
| `KconfigExpr.MakeOrValue` | tools/kconfiglib.py:2254-2266 | _make_or simplifies without changing the value |
| `KconfigExpr.MakeTrims` | tools/kconfiglib.py:2240-2266 | they leave no operand of && or || that is n or y |
| `KconfigExpr.Parser.Check` | tools/kconfiglib.py:2009-2015 | _check_token consumes exactly a matching token |
| `KconfigExpr.Parser.Expr` | tools/kconfiglib.py:2737-2777 | the parser with its cursor computes the grammar's result, error included |
| `KconfigExpr.Parser.AndExpr` | tools/kconfiglib.py:2779-2787 | likewise for chains of && |
| `KconfigExpr.Parser.Factor` | tools/kconfiglib.py:2789-2821 | likewise for factors |
| `KconfigLoop.NoCycle` | tools/kconfiglib.py:5486-5558 | a graph whose dependants are in topological order has no cycle |
| `KconfigLoop.Earlier` | tools/kconfiglib.py:5486-5558 | read backwards, the order evaluates every symbol after all it depends on |
| `KconfigLoop.FineSym` | tools/kconfiglib.py:5486-5558 | a visit of a symbol that finds nothing leaves it, and all that is done, in an order in which symbols come after all that depend on them and choices after their symbols |
| `KconfigLoop.FineChoice` | tools/kconfiglib.py:5560-5591 | the same for a choice; entered through one of its symbols, all its other symbols are in the order |
| `KconfigLoop.LoopSym` | tools/kconfiglib.py:5486-5558 | a loop collected on the way back leads from an item on the call stack through different items, each depending on the next; one that is raised is closed, and never just a symbol and its choice |
| `KconfigLoop.LoopChoice` | tools/kconfiglib.py:5560-5591 | the same for a choice: the symbol it was entered through is not reported back |
| `KconfigLoop.CycleEnters` | tools/kconfiglib.py:5486-5591 | a cycle that the search misses enters a choice as one of its symbols |
| `KconfigLoop.Checker.CheckSym` | tools/kconfiglib.py:5486-5558 | the three-state search with its marks ends and computes its specification |
| `KconfigLoop.Checker.CheckChoice` | tools/kconfiglib.py:5560-5591 | likewise for choices, with the symbol to skip |
| `KconfigLoop.Checker.CheckAll` | tools/kconfiglib.py:872-873 | a loop that is raised is one; success puts all items in an order in which symbols come after all that depend on them and choices after their symbols, and leaves only cycles that enter a choice as one of its symbols; without choices an error is raised if and only if the dependents graph has a cycle |
| `KconfigCache.StepLocal` | tools/kconfiglib.py:3584-3662 | evaluating a visibility, value or selection looks at nothing but the cells it reports, with all short cuts |
| `KconfigCache.StepFrom` | tools/kconfiglib.py:2827-2900 | every cell read belongs to the item, to one it depends on in _build_dep, or to MODULES |
| `KconfigCache.StepUser` | tools/kconfiglib.py:4310-4328 | a user setting is seen only by its own item and by items that depend on a choice |
| `KconfigCache.ValueIsStep` | tools/kconfiglib.py:5215-5242 | the uncached value of a cell is one step from the values of the cells it reads |
| `KconfigCache.ValueKept` | tools/kconfiglib.py:4001-4030 | a cell left in the cache has the same value under the new settings, although invalidation stops at items without a cached visibility |
| `KconfigCache.InvalidateKeeps` | tools/kconfiglib.py:4001-4030 | invalidating an item and its cached dependants covers a change of its settings, and for a choice also of its symbols' settings |
| `KconfigCache.PromptlessKeeps` | tools/kconfiglib.py:4032-4053 | settings of a symbol without a prompt have no effect, so nothing need be invalidated |
| `KconfigCache.Kconfig.RecInvalidate` | tools/kconfiglib.py:4001-4030 | the pruned recursion ends, also on choice and symbol cycles, and leaves no cached dependant of anything it dropped; MODULES drops everything |
| `KconfigCache.Kconfig.SetSymbol` | tools/kconfiglib.py:3713-3796 | every cached value is still what evaluation without caches gives; invalid values are refused; a choice symbol set to y becomes the user selection |
| `KconfigCache.Kconfig.UnsetSymbol` | tools/kconfiglib.py:3798-3805 | likewise for unset_value |
| `KconfigCache.Kconfig.SetChoice` | tools/kconfiglib.py:4360-4400 | likewise for the mode of a choice |
| `KconfigCache.Kconfig.UnsetChoice` | tools/kconfiglib.py:4402-4409 | likewise for resetting a choice |
| `KconfigCache.Kconfig.EvalIt` | tools/kconfiglib.py:4986-5041 | expr_value through the caches gives the uncached value and caches all it read |
| `KconfigCache.Kconfig.ModeIt` | tools/kconfiglib.py:4310-4328 | Choice.tri_value through the caches, likewise |
| `KconfigCache.Kconfig.Visibility` | tools/kconfiglib.py:3674-3682 | the cached visibility equals evaluation from empty caches |
| `KconfigCache.Kconfig.VisibilityOf` | tools/kconfiglib.py:5215-5242 | _visibility computes its specification with every read cached |
| `KconfigCache.Kconfig.TriValue` | tools/kconfiglib.py:3584-3662 | the cached value equals evaluation from empty caches, which gives what KconfigLaws.SymbolMeans and KconfigLaws.MemberMeans say |
| `KconfigCache.Kconfig.Selection` | tools/kconfiglib.py:4350-4358 | the cached selection equals evaluation from empty caches |
| `KconfigCache.Kconfig.SelectionOf` | tools/kconfiglib.py:4536-4566 | _selection computes its specification: user selection if visible, else defaults, else the first visible symbol |
| `KconfigCache.Kconfig.Play` | tools/kconfiglib.py:3713-3805 | after any sequence of settings, resets and reads the settings are those of the sequence, every read has given what evaluation from empty caches gives for the settings at that point, and so is everything that is cached |
| `KconfigDeps.MakeDependOn` | tools/kconfiglib.py:5244-5260 | registers the item with exactly the symbols and choices the expression mentions |
| `KconfigDeps.BuildDep` | tools/kconfiglib.py:2827-2884 | _dependents holds exactly the items whose properties mention each item |
| `KconfigDeps.AddChoiceDeps` | tools/kconfiglib.py:2886-2900 | after loop detection, _dependents also holds the choice of each symbol: exactly the items that depend on each item |
| `KconfigDeps.LoopFreeIsAcyclic` | tools/kconfiglib.py:5486-5558 | without choices, the order that successful loop detection leaves makes evaluation well-founded if evaluating MODULES cannot come back to MODULES |
| `KconfigDeps.AcyclicIff` | tools/kconfiglib.py:5486-5558 | ... and only if |
| `KconfigDeps.LoopIff` | tools/kconfiglib.py:3431-3441 | it comes back exactly if it may come to a tristate symbol that may look at MODULES for its type |
| `KconfigDeps.BoolModulesFine` | tools/kconfiglib.py:3431-3441 | in particular it does not if everything MODULES transitively depends on is bool |
| `KconfigDeps.TrapUndetected` | tools/kconfiglib.py:3431-3441 | tristate BAR, and bool MODULES with its prompt if BAR: loop detection finds nothing, and there is no evaluation order |
| `KconfigDeps.TrapCycle` | tools/kconfiglib.py:3431-3441 | with BAR set to m, MODULES reads its visibility, that reads BAR, and BAR reads MODULES, whatever the other values are |
| `KconfigChoice.OrderIff` | tools/kconfiglib.py:3584-3662 | in every configuration values have an order of evaluation if and only if no cell may come back to itself |
| `KconfigChoice.UsesPlaced` | tools/kconfiglib.py:5486-5591 | what a step reads comes earlier in the order that loop detection leaves, except for MODULES, for the symbols a selection looks at, and for a choice looked at from outside |
| `KconfigChoice.ChoiceOrderIff` | tools/kconfiglib.py:5486-5591 | after successful loop detection values have an order of evaluation if and only if evaluating MODULES cannot come back to it, the visibility of no symbol of a choice can hang on the value of another, and the visibility of no choice on an item that looks at the choice but neither is nor mentions one of its symbols |
| `KconfigChoice.RivalsUndetected` | tools/kconfiglib.py:5560-5591 | a choice of 1, 2 and 3, where 2 depends on 4 and 4 is y if 3 is: with 1 defined first the search finds nothing and values have no order of evaluation, with 4 defined first it raises the loop |
| `KconfigChoice.GuestUndetected` | tools/kconfiglib.py:5560-5591 | a choice whose prompt depends on a symbol in a menu inside the choice: loop detection finds nothing, and values have no order of evaluation |
| `KconfigChoice.Load` | tools/kconfiglib.py:868-877 | the end of loading: a raised loop is one in the dependents graph; on success the dependents are complete and values have an order of evaluation exactly under that condition |
| `KconfigChoice.Open` | tools/kconfiglib.py:868-877 | under that condition, a configuration in which no loop is raised, with choices or without, has caches that start valid |
| `KconfigCache.ValueTri` | tools/kconfiglib.py:3584-3662 | every visibility and value is n, m or y, and never m for what is declared bool, in every configuration and for all settings |
| `KconfigLaws.DictionaryOrder` | tools/kconfiglib.py:5292-5296 | strings compare as in a dictionary |
| `KconfigLaws.EvalMeans` | tools/kconfiglib.py:4986-5041 | expr_value with its short cuts gives the meaning of the expression: the lesser for &&, the greater for ||, relations by number where both sides have one and otherwise by text |
| `KconfigLaws.ParsedMeans` | tools/kconfiglib.py:4986-5041 | the value of a parsed expression is what the condition made of it means |
| `KconfigLaws.VisibilityMeans` | tools/kconfiglib.py:5215-5242 | the visibility is the greatest value of the prompt conditions, n if the choice hides the symbol, and m is y for what is not a tristate at the moment |
| `KconfigLaws.SymbolMeans` | tools/kconfiglib.py:3606-3648 | the value of a symbol outside choices: the user's value as far as it is visible, else the first default whose condition is met, capped by that, or a greater imply with dependencies met; raised to what selects it; m is y exactly for bool, for MODULES n, or for an imply of y |
| `KconfigLaws.AtLeastSelected` | tools/kconfiglib.py:3634-3642 | the value is at least that of the select expression |
| `KconfigLaws.UserValueStands` | tools/kconfiglib.py:3608-3611 | a visible symbol that nothing selects has what the user set, as far as it is visible |
| `KconfigLaws.DefaultStands` | tools/kconfiglib.py:3613-3632 | an invisible or unset symbol that nothing selects has its default or a greater imply |
| `KconfigLaws.SelectionMeans` | tools/kconfiglib.py:4536-4566 | the selection in y mode is the user's if visible, else the first default whose condition is met and whose symbol is visible, else the first visible symbol |
| `KconfigLaws.MemberMeans` | tools/kconfiglib.py:3650-3662 | a choice symbol that shows as y is y or n by the selection; one that shows as m is m exactly if the user set it; otherwise it is n |
| `KconfigLaws.SelectionVisible` | tools/kconfiglib.py:4536-4566 | the selection is a visible symbol of the choice; there is none exactly if the choice is not in y mode or has no visible symbol |
| `KconfigLaws.ChoiceIsExclusive` | tools/kconfiglib.py:3650-3659 | in a y-mode choice exactly the selection is y and every other symbol n |
| `RomFs.ImageReadsBack` | tools/mkromfs.py:230-241 | following the entries of the image from its first one gives back the tree: names, order, contents, child counts |
| `RomFs.ReadList` | tools/mkromfs.py:162-211 | the entries and payload of a folder read back as its children, at every address |
| `RomFs.NameRead` | tools/mkromfs.py:76-81 | a padded name reads back as the name |
| `RomFs.EmitIff` | tools/mkromfs.py:181-211 | a list of nodes can be written if and only if the data address and the size in its last entry fit 32 bits |
| `RomFs.ImageFits` | tools/mkromfs.py:230-241 | the writer succeeds if and only if the last data address and the last size fit 32 bits, and the image has the predicted length |
| `RomFs.BinData` | tools/mkromfs.py:162-211 | the recursive writer computes the specified bytes, or fails exactly when a field does not fit 32 bits |
| `RomFs.BinChildren` | tools/mkromfs.py:181-211 | the loop that advances v_len and collects entries and payload computes the specified layout |

## Left out

- MemHeap.Heap.Realloc: payload bytes are modelled only for the small heap. Headers are fields at addresses, so the bytes that a header inside another one overwrites are not; the next pointer that breaks the heap is not among them.
- MemHeap.Heap.constructor: the pool is a range of offsets from 0; the pool address, the object name and the lock are not modelled.
- Mutex.RunKeeps: one mutex with a priority-ordered wait list and no priority changes from outside, because releasing restores the priority saved by that one mutex and a priority change does not re-sort wait lists.
- TimerList.Timers.Start: requires an interval of 1 to RT_TICK_MAX / 2 - 1 ticks, as the code asserts, and no rt_tick_set.
- TimerList.Timers.ArmIt: insertion later than nearly the whole counter range after the deadline is not covered. What a list that is out of order does is followed for one tick only (TimerList.LateStartMisplaced).
- TimerRuns.OneShotFiresOnce: the timer is not started or stopped by anybody meanwhile; StartThenFires and StopThenSilent cover those calls. Two starts of the same timer that overlap break the list as TimerSpec.StampKeeps and TimerSpec.ArmKeeps say, and runs end where they do.
- ThreadCalls.StepSound: startup writes the priority fields and the state in one step; the state is written last, and nobody looks at the others before.
- KconfigCache.Kconfig.constructor: evaluation is required to be free of loops; KconfigChoice.Open derives this from loop detection and the condition of KconfigChoice.ChoiceOrderIff.
- KconfigLoop.Checker.CheckAll: with choices a loop may go unfound, as KconfigChoice.RivalsUndetected shows; which loops these are is said exactly for evaluation (KconfigChoice.ChoiceOrderIff), and for the dependents graph only that they enter a choice.
- SlabZones.Slab.constructor: the usage table is kept outside the managed pages, and heap addresses start at page 0.
- Int, hex and string symbols of Kconfig (`str_value`, ranges) and the `assignable` attribute: the same caching over more cells.
- Reading and tokenising Kconfig files, warnings, menus.
- FIFO wait lists of mutexes, semaphores, memory pools, deleting kernel objects: easier than what is modelled.
- Signals, soft timers and the timer thread, SMP scheduling, context switching, stacks, hooks, debug output.
- Links of wait lists and ready lists are sequences in the models that use them; LinkedRing shows that the pointer operations are the sequence operations.
- C source output of the ROM file system tool, reading directories from disk.
