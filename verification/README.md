# A verified model of the RT-Thread kernel core and the FinSH compiler

The project models three parts of the system and proves what they promise.

**Memory.** `Layout` is the shared picture of a heap of adjacent blocks, `Contents` the bytes of its live areas. `MemHeap` models `src/memheap.c`
(boundary tags, a circular physical list and a free list through the same blocks), `SmallMem` models `src/mem.c`
(offset links and the `lfree` cache). `PageList` models the page runs of `src/slab.c`; `SlabZones`, `SlabLists` and
`Slab` model its size classes, zones, zone lists and page map. A pointer is a number, a field of all blocks
together is a map from addresses, and each list operation rewrites the maps as the C code rewrites the fields. The bytes
of the pool are modelled apart from the fields: `HeadersWritten` makes them follow, so a field written inside a live
area would lose live data, and the invariants say that this never happens.
Every public call is one step, because every one runs under a lock.

**Threads, timers and IPC.** `RtList` models the circular lists of `include/rtservice.h`; `Queues` puts the ready lists and
all suspend lists on the one `tlist` node of each thread; `Chains` are singly linked lists that end in NULL.
`ReadyIndex` models the priority bitmaps and `__rt_ffs`, `Kernel` models `src/scheduler.c`, `src/thread.c` and the
suspend lists of `src/ipc.c`. `Semaphores`, `Mutexes`, `Events`, `Mailboxes` and `MsgQueues` model the IPC objects on top of it;
`Waits` is what they share. `Timer` models the skip list of `src/timer.c` on 32-bit ticks that wrap around, and `Ticks`
joins it to the threads: a thread's timer is in the list exactly while the thread sleeps with a time limit. `Slices`
runs the scheduler over many ticks.
A method is one region with interrupts disabled. A blocking call is therefore several methods (for example
`Recv`, then `RecvAgain` each time the thread runs again), and a run of the system is any sequence of method calls, so an
invariant (`Valid`) that every method keeps holds in every reachable state. The whole effect of a call is a predicate with
the name of the method and the ending `Step`. It includes what the call leaves alone (`Frame`: the suspend lists, error
codes, event fields and priorities it does not touch) and exactly which threads it makes READY or suspends (`Roused`); a
woken call whose thread has not run since is READY by the invariant. `Elsewhere` in each IPC class says what a step of
others means for the object, and `Systems` puts any number of objects of all five kinds on one kernel: each of their steps
has its full effect and keeps the invariant of every one of them, in any order.

**The FinSH compiler.** `FinshSyntax` has the expressions, a direct evaluator and the node trees; `FinshCompiler` the
type pass and the code generator; `FinshMachine` the byte code and its operators, `FinshArith` what the operators compute; `FinshCorrect` the preservation proof; `FinshVm` the
imperative compiler and virtual machine, proved against those functions.

Assumptions: blocking calls are made by a READY thread with the scheduler unlocked; only started threads are
deleted; a thread inside a blocking call is not deleted, resumed or suspended by another thread before its call has
returned (in `Systems` these are preconditions); timeout functions leave the timer list alone.

## Model

| member | source | states |
|---|---|---|
| `FinshMachine.OperandRoundTrip` | components/finsh/finsh.h:38-55 | a 32-bit operand written by FINSH_SET32 reads back by FINSH_GET32, and the bytes read write back |
| `FinshMachine.LoadAfterStore` | components/finsh/finsh_ops.c:428-434 | a dword stored in memory, at any address with wrap-around, loads back unchanged |
| `FinshArith.LittleEndian` | components/finsh/finsh.h:49-56 | the four operand bytes are the digits of the number to base 256, the least one first |
| `FinshArith.StoreFrame` | components/finsh/finsh_ops.c:428-434 | a dword store writes exactly these bytes to exactly four addresses, also around the end of the address space |
| `FinshArith.AddSub` | components/finsh/finsh_ops.c:69-96 | + and - give the signed sum and difference up to multiples of 2^32, and - undoes + |
| `FinshArith.Times` | components/finsh/finsh_ops.c:157-162 | * gives the signed product up to multiples of 2^32 |
| `FinshArith.TimesLaws` | components/finsh/finsh_ops.c:157-162 | * by 0 is 0, by 1 the operand, and * distributes over + |
| `FinshArith.DivMod` | components/finsh/finsh_ops.c:113-140 | / and % are undefined exactly for the divisor 0; otherwise a == q * b + r, r is smaller than b in amount and has the sign of a, except that the least number by -1 wraps to itself with remainder 0 |
| `FinshArith.Shifts` | components/finsh/finsh_ops.c:267-294 | << by one more doubles, >> by one more halves the signed number rounding down; both are undefined from 32 on |
| `FinshArith.Bitwise` | components/finsh/finsh_ops.c:179-250 | and, or, exclusive or and complement, bit by bit of the 32-bit numbers |
| `FinshCorrect.LeftmostType` | components/finsh/finsh_compiler.c:791-795 | the type pass gives every node the type of its leftmost leaf, so a node is a dword exactly when that leaf is typed |
| `FinshCorrect.OperatorEmittedIffTyped` | components/finsh/finsh_compiler.c:759-795 | an operator's instruction is emitted exactly when its left operand is typed |
| `FinshCorrect.Simulate` | components/finsh/finsh_compiler.c:43-757 | for every well-typed expression, in any stack and at any place of the text, the emitted bytes push exactly the value of the direct evaluator with its memory effects, or fault where it is undefined |
| `FinshCorrect.SimulatePlace` | components/finsh/finsh_compiler.c:759-789 | code compiled in address mode pushes the address of a variable or of a dereference |
| `FinshCorrect.SimulateCall` | components/finsh/finsh_ops.c:444-569 | arguments are evaluated left to right, popped in order, and the result replaces the function address |
| `FinshCorrect.SimulateIncrement` | components/finsh/finsh_compiler.c:43-757 | pre and post increment and decrement of a variable store the changed value and push the new or the old one |
| `FinshCorrect.SimulateAssign` | components/finsh/finsh_compiler.c:43-757 | assignment through a variable or a pointer stores the value and leaves it on the stack |
| `FinshCorrect.CompilerCorrect` | components/finsh/finsh_compiler.c:903-937 | a list of well-typed statements of at most 16 nodes runs with all effects in order, never leaves the 64 stack cells, and ends with the last value alone at the bottom |
| `FinshCorrect.OperatorCorrectIffTyped` | components/finsh/finsh_compiler.c:791-795 | a compiled binary operation leaves exactly the evaluator's result, alone on the stack, if and only if its left operand is typed |
| `FinshCorrect.NotCorrectIffTyped` | components/finsh/finsh_compiler.c:791-795 | a compiled complement is right if and only if its operand is typed |
| `FinshCorrect.LoadCorrectIff` | components/finsh/finsh_compiler.c:759-795 | a compiled dereference is right if and only if the pointer is typed or points to a cell that holds its own address |
| `FinshCorrect.AssignCorrectIffTyped` | components/finsh/finsh_compiler.c:759-795 | a compiled assignment is right if and only if its destination is typed; nothing is stored through an untyped pointer |
| `FinshCorrect.TwoValues` | components/finsh/finsh_compiler.c:791-795 | without the instruction both operand values stay on the stack |
| `FinshVm.Compiler.Compile` | components/finsh/finsh_compiler.c:43-757 | the recursive generator writes exactly the bytes of Emit behind finsh_compile_pc and nothing else |
| `FinshVm.Compiler.Run` | components/finsh/finsh_compiler.c:903-937 | the text segment is the code of the statements with POP between them, then zero bytes |
| `FinshVm.Machine.PopArgs` | components/finsh/finsh_ops.c:455-463 | the pop loop collects the arguments in the order they were pushed |
| `FinshVm.Machine.Dispatch` | components/finsh/finsh_vm.c:62-71 | one round of the fetch loop on the array stack is one step of the byte-code semantics |
| `FinshVm.Machine.Run` | components/finsh/finsh_vm.c:47-72 | the loop refines Exec from the empty stack at pc 0 |
| `FinshVm.Machine.Line` | components/finsh/finsh_vm.c:47-72 | compiling and running a shell line gives the value and the memory of the direct evaluator, read at the stack bottom; what its operators compute is stated in FinshArith |
| `RtList.InsertAfterRing` | include/rtservice.h:62-69 | insertion behind a member keeps one circular list, with next and prev inverse, and the node at that place |
| `RtList.InsertBeforeRing` | include/rtservice.h:77-84 | insertion before the head appends |
| `RtList.RemoveRing` | include/rtservice.h:90-96 | removal shortens the list by exactly that node and leaves the node linked to itself |
| `RtList.RemoveUndoesInsert` | include/rtservice.h:62-96 | removal right after insertion restores every link of the list |
| `RtList.Steps` | include/rtservice.h:102-105 | next and prev move one place around the list, and the emptiness test holds exactly for a head alone |
| `RtList.InsertFrame` | include/rtservice.h:62-69 | lists without the two nodes involved are untouched |
| `Queues.JoinBefore` | include/rtservice.h:77-84 | a thread in no list joins one at the given place; all other lists and loose threads keep their form |
| `Queues.LeaveOk` | include/rtservice.h:90-96 | a thread leaves the one list it is in, or changes nothing when it is in none |
| `Chains.ChainDrop` | src/slab.c:894-896 | storing past a member at the place that points to it takes out exactly that member |
| `Layout.BytesTotal` | src/memheap.c:72-75 | free data, used data and one header per block add up to the whole pool |
| `Layout.AllocKeeps` | src/memheap.c:195-252 | marking and splitting keeps an exact tiling without adjacent free blocks |
| `Layout.FreeKeeps` | src/memheap.c:537-586 | freeing with both merges keeps an exact tiling without adjacent free blocks |
| `Layout.ShrinkKeeps` | src/memheap.c:423-489 | cutting a used block and merging the rest keeps the form and gives the exact size |
| `Layout.FreeUndoesAlloc` | src/memheap.c:499-596 | freeing what was just allocated restores the layout |
| `Layout.LiveDisjoint` | src/memheap.c:146-288 | two live areas are the same or lie apart with a header between them |
| `Layout.LiveNotHeader` | src/memheap.c:60-131 | no byte of a live area belongs to a block header |
| `MemHeap.WantCovers` | src/memheap.c:146-170 | the raised size covers the request if and only if aligning it does not wrap around 32 bits |
| `MemHeap.WantIs` | src/memheap.c:155-160 | the raised size is the least multiple of the alignment from the request on, but at least 12, as long as aligning does not wrap |
| `MemHeap.WantWraps` | src/memheap.c:155-157 | a request for 2^32 - 1 bytes is raised to the minimal 12 |
| `MemHeap.GrowFitsExact` | src/memheap.c:354-354 | the test for growing into the neighbour is right if and only if size + 12 does not wrap |
| `MemHeap.GrowFitsWrong` | src/memheap.c:354-354 | a concrete heap where the test lets 12 bytes grow to 2^32 - 4 |
| `MemHeap.SplitWired` | src/memheap.c:195-243 | the pointer surgery of a split keeps the physical ring, the free ring and the free list exact |
| `MemHeap.JoinChained` | src/memheap.c:542-579 | unlinking a merged header keeps the physical ring over the joined blocks |
| `MemHeap.GrowChained` | src/memheap.c:354-400 | moving the free neighbour's header upward keeps both rings |
| `MemHeap.CutChained` | src/memheap.c:436-489 | inserting the cut-off header keeps the physical ring |
| `MemHeap.Memheap.constructor` | src/memheap.c:60-131 | initialisation gives one free block and the used tailer, aligned, with exact accounting |
| `MemHeap.Memheap.Accounting` | src/memheap.c:72-75 | in every reachable state available_size is the free data, pool_size is that plus used data and one header per block, and max_used_size is the maximum of pool_size - available_size so far |
| `MemHeap.Memheap.LiveApart` | src/memheap.c:146-288 | in every reachable state live allocations are disjoint and inside the pool |
| `MemHeap.Memheap.Search` | src/memheap.c:174-190 | the loop stops at the first entry of the free list that is large enough, or proves that all are too small |
| `MemHeap.Memheap.Alloc` | src/memheap.c:146-288 | first fit in the order of the free list, where the rest of a split block goes to the front: exactly one new live area of at least the raised size, all other bytes kept; NULL, without any change, if and only if the available total is not above the raised size or every free block is smaller |
| `MemHeap.Memheap.Free` | src/memheap.c:499-596 | exactly the given area stops being live; every other area and its bytes stay; the block enters the free list in front, unless its left neighbour, which keeps its place, swallows it |
| `MemHeap.Memheap.Release` | src/memheap.c:534-586 | leaving the used state, merging left and right and entering the free list rebuild the invariant; the live bytes of all other areas are kept |
| `MemHeap.Memheap.Reclaim` | src/memheap.c:555-586 | merging with the next block and entering the free list, likewise |
| `MemHeap.Memheap.Realloc` | src/memheap.c:291-496 | on all four paths the returned area of k bytes holds the first min(old, k) old bytes, every other live area and its bytes are untouched, and a null result leaves the old block and all bytes as they were; k covers the request if and only if aligning it does not wrap. A growing area stays where it is, with exactly the raised size, if and only if the block behind it is free and both sizes together exceed the raised size plus 12; otherwise it moves, and NULL is returned if and only if the search cannot find a block. Addresses stay multiples of 4 |
| `MemHeap.Memheap.GrowInto` | src/memheap.c:354-400 | growing into a free neighbour moves the neighbour's header to the front of the free list, keeps the invariant and preserves all live bytes |
| `MemHeap.Memheap.ShrinkBlock` | src/memheap.c:423-489 | shrinking keeps the invariant and preserves all live bytes; the tail, joined with a free neighbour, enters the free list in front |
| `MemHeap.Memheap.Move` | src/memheap.c:412-420 | moving copies the old bytes into a new area and releases the old one, and fails if and only if no block is found |
| `SmallMem.JoinLinked` | src/mem.c:136-174 | joining with the successor keeps next exact and prev exact for every block but the end sentinel |
| `SmallMem.SplitLinked` | src/mem.c:303-318 | splitting keeps next and prev exact |
| `SmallMem.WantCovers` | src/mem.c:262-279 | the aligned and the raised size cover the request if and only if it is at most 2^32 - 8 |
| `SmallMem.AlignWraps` | src/mem.c:394-396 | aligning 2^32 - 1 gives 0: rt_realloc of a 64-byte area to that size cuts it to nothing |
| `Contents.ClobberKeeps` | src/memheap.c:146-596 | whatever the bytes of changed headers become: if every changed header belongs to the old or the new layout, no byte of an area that is live before and after changes |
| `MemHeap.Memheap.HeadersWritten` | src/memheap.c:195-586 | the bytes follow the header fields: a changed field loses the bytes of its header, wherever it is, and live data survives because only headers of the old and the new layout have changed |
| `MemHeap.CarveWrites` | src/memheap.c:195-252 | every header field that an allocation writes belongs to a block of the old or the new layout, or to the free list head |
| `MemHeap.GrowWrites` | src/memheap.c:354-400 | the same for moving the header of a free neighbour |
| `MemHeap.RightWrites` | src/memheap.c:555-579 | the same for merging with the next block |
| `SmallMem.SmallHeap.HeadersWritten` | src/mem.c:136-454 | the same account of header bytes for the offset heap |
| `Contents.MoveResizes` | src/memheap.c:412-420 | allocating, copying and releasing moves an area with its bytes and leaves every other one alone |
| `SmallMem.LowestUnique` | src/mem.c:545-556 | a correct and lowest lfree is determined by the layout |
| `SmallMem.SmallHeap.constructor` | src/mem.c:184-231 | initialisation: one free block of the whole region, the used sentinel, lfree lowest; the invariant holds if and only if there is room for one minimal block |
| `SmallMem.SmallHeap.Malloc` | src/mem.c:246-374 | the lowest-addressed fitting free block that starts from lfree on and below mem_size_aligned - size, 8-aligned; NULL leaves the heap unchanged and is returned if and only if there is none; used_mem stays exact and lfree stays lowest |
| `SmallMem.SmallHeap.Advance` | src/mem.c:344-351 | the loop moves lfree to the next free block or the end |
| `SmallMem.SmallHeap.PlugHoles` | src/mem.c:136-174 | combining with both neighbours keeps links, tiling, the cache and all live bytes |
| `SmallMem.SmallHeap.Free` | src/mem.c:504-558 | exactly the given area stops being live and lfree stays lowest; addresses outside the heap change nothing; all other live bytes are kept |
| `SmallMem.SmallHeap.MallocFree` | src/mem.c:246-558 | malloc followed at once by free restores layout, lfree and used_mem |
| `SmallMem.SmallHeap.Realloc` | src/mem.c:385-466 | shrinking keeps the address, growing moves the area; the first bytes up to the old and the aligned new size are preserved, every other live area and its bytes stay, failure leaves the old block and all bytes and happens if and only if the aligned size exceeds the heap or the search of rt_malloc finds no block; the area covers the request if and only if aligning it does not wrap |
| `SmallMem.SmallHeap.Cut` | src/mem.c:430-454 | the shrink keeps the invariant, and lfree stays lowest if and only if it lay below the new free block or was the free neighbour that is swallowed |
| `SmallMem.CutLowestIff` | src/mem.c:430-454 | the same equivalence on the layout, for every heap |
| `SmallMem.CutLeavesLowest` | src/mem.c:430-454 | a concrete heap in which rt_realloc leaves lfree above a free block |
| `PageList.TakeExact` | src/slab.c:246-280 | allocation removes exactly n pages that were free and keeps the sorted, coalesced form |
| `PageList.TakeLowest` | src/slab.c:246-280 | first fit returns the lowest n free pages in a row and fails only if there are none |
| `PageList.PutExact` | src/slab.c:282-332 | freeing adds exactly the given pages and keeps the sorted, coalesced form |
| `PageList.Unique` | src/slab.c:282-332 | the form is canonical: the free-page set determines the list |
| `PageList.FreeUndoesAlloc` | src/slab.c:246-332 | freeing what was just allocated restores the identical list |
| `PageList.ChainReplace` | src/slab.c:258-266 | replacing the first page of a run through the prev pointer keeps the chain |
| `PageList.PageAllocator.Alloc` | src/slab.c:246-280 | the list in memory refines the free-page set: the lowest fitting pages, or NULL with no change if and only if there are none |
| `PageList.PageAllocator.Find` | src/slab.c:296-323 | the search stops where the pages belong, and the assertions of its loop hold |
| `PageList.PageAllocator.Extend` | src/slab.c:301-310 | appending to a run also swallows the next run when they meet |
| `PageList.PageAllocator.Release` | src/slab.c:282-332 | the list in memory refines set union |
| `SlabZones.ClassOk` | src/slab.c:411-469 | every size below 16384 has an index below 72 whose chunk size depends on the index alone, is large enough, and is the first such; at most an eighth, or 7 bytes, is wasted |
| `SlabZones.ClassGrows` | src/slab.c:411-469 | index and chunk size are monotone in the request |
| `SlabZones.ClassAgain` | src/slab.c:738-747 | rounding a rounded size changes nothing if and only if the request is at most 15360 |
| `SlabZones.ChunkInside` | src/slab.c:641-660 | each chunk lies in its zone behind the header and ends where the next begins, and there is no room for one more |
| `SlabZones.ChunkAligned` | src/slab.c:641-653 | every chunk of a zone lies at a multiple of 8 |
| `SlabZones.ChunksApart` | src/slab.c:571-583 | different chunks of a zone do not overlap |
| `SlabZones.OffsetOk` | src/slab.c:640-650 | the chunk array starts behind the header, at a multiple of the chunk size when that is a power of two |
| `SlabZones.PowerTestOk` | src/slab.c:647-647 | the bit test holds exactly for the powers of two |
| `SlabZones.TakenOk` | src/slab.c:554-583 | taking a chunk from a zone with z_nfree > 0 hands out one not in use and keeps z_nfree equal to the never-used chunks plus the free list |
| `SlabZones.ReturnedOk` | src/slab.c:861-873 | returning a chunk keeps the same equation |
| `SlabZones.AllBack` | src/slab.c:885-886 | z_nfree reaches z_nmax exactly when no chunk is in use |
| `SlabLists.PushOk` | src/slab.c:873-877 | a zone in no list enters one; zones stay in one list at most |
| `SlabLists.DropOk` | src/slab.c:894-896 | a zone leaves its list, the others stay |
| `SlabLists.HeldOk` | src/slab.c:246-280 | allocated pages get one owner; every heap page stays free or owned, never both |
| `SlabLists.DroppingOk` | src/slab.c:282-332 | releasing an allocation frees its pages alone |
| `SlabLists.ExtentsApart` | src/slab.c:488-685 | two allocations share no page, and none of their pages is free |
| `Slab.SlabHeap.constructor` | src/slab.c:354-405 | set-up: page map allocated, all other pages free, zone size and limit chosen so that every class fits four times |
| `Slab.ZoneSizeFor` | src/slab.c:384-387 | the loop picks the zone size |
| `Slab.SlabHeap.Malloc` | src/slab.c:488-685 | one new chunk of the class of the request, from the first zone of the class with a free chunk, else from the first spare zone, else from a new zone in the lowest free pages in a row; or just enough whole pages, the lowest in a row; the page list, the spare zones and the zone lists change accordingly and not otherwise; everything handed out before keeps its zone and chunk size, or its pages; NULL if and only if the size is zero or no zone, spare zone or pages are left, and then nothing changes |
| `Slab.SlabHeap.TakeChunk` | src/slab.c:554-592 | a zone leaves its list exactly with its last free chunk |
| `Slab.SlabHeap.StartZone` | src/slab.c:636-664 | a new or recycled zone is set up for the class and listed, its first chunk handed out |
| `Slab.SlabHeap.Free` | src/slab.c:793-935 | exactly the given chunk, or exactly the pages of the given large allocation, is given back, everything else that was handed out stays as it was; a chunk returns pages if and only if it is the last of a zone with company in its class while two zones are spare; a zone that was full comes back to the front of its list |
| `Slab.SlabHeap.Retire` | src/slab.c:885-931 | a zone becomes spare exactly when it is wholly free and another zone of its class has a free chunk; if two zones are spare already exactly its pages become free, otherwise the free pages stay; the order of the other zones in the lists stays |
| `Slab.SlabHeap.Lookup` | src/slab.c:826-859 | the page map leads from any chunk in use to its zone and from a large allocation to its length |
| `Slab.SlabHeap.ChunksApartHere` | src/slab.c:488-685 | in every reachable state chunks in use do not overlap one another |
| `Slab.SlabHeap.HeaderApart` | src/slab.c:488-685 | in every reachable state no chunk in use reaches into the header of any zone, spare zones included |
| `Slab.SlabHeap.LargeApart` | src/slab.c:508-536 | in every reachable state large allocations overlap neither one another nor a zone |
| `Slab.SlabHeap.AreasApart` | src/slab.c:488-685 | in every reachable state two areas handed out, chunks or pages, do not overlap for the sizes they were requested with |
| `Slab.TwoRequests` | src/slab.c:488-935 | what two requests return does not overlap, whatever was freed in between |
| `Timer.TickOrder` | src/timer.c:356-363 | within half the tick range the wrapped 32-bit comparisons agree with the true times |
| `Timer.PlacedSorted` | src/timer.c:339-377 | a started timer goes behind every deadline up to its own, so rows stay sorted and equal deadlines keep start order |
| `Timer.RowRemove` | src/timer.c:123-131 | removal from a row, for a timer in it or not |
| `Timer.SubsetIsSublist` | src/timer.c:339-389 | in sorted rows containment is the sub-list relation |
| `Timer.StartedOk` | src/timer.c:339-391 | inserting into the rows from some level down keeps every row sorted and contained in the row below |
| `Timer.Timers.constructor` | src/timer.c:671-680 | all rows empty |
| `Timer.Timers.InitTimer` | src/timer.c:82-107 | a new timer is in no row and not activated, with its own period; all other timers keep theirs |
| `Timer.Timers.Search` | src/timer.c:339-368 | the nested loops find, in every row, the last node whose deadline is not later |
| `Timer.Timers.Start` | src/timer.c:294-409 | for any number of levels and across tick wrap-around the timer ends at its place in the last row and in the rows from stop on, at now + init_tick, activated, all else unchanged; the counter goes up by one and its bits decide stop |
| `Timer.LowBitsClear` | src/timer.c:375-389 | with the default mask of two bits, i sparser rows are joined exactly if the low 2 * i bits of the counter are clear |
| `Timer.Timers.Stop` | src/timer.c:419-442 | an error exactly for a timer not in the list; otherwise it leaves every row |
| `Timer.Timers.InTheList` | src/timer.c:294-409 | in every reachable state the last row has every active timer once, by deadline and then by start |
| `Timer.RankSplits` | src/timer.c:488-546 | in a sorted row the expired timers are exactly a prefix |
| `Timer.FireStep` | src/timer.c:501-541 | one firing, with or without re-arming, removes the first expired timer and lowers their number by one |
| `Timer.RearmShrinks` | src/timer.c:488-546 | arming the fired timer again takes it out of those due if and only if its period is not 0; with a period of 0 it stays due at the same tick |
| `Timer.Timers.Check` | src/timer.c:488-546 | terminates; fires exactly the timers whose deadline has come, by deadline and then by start; periodic ones are armed again at now + period in firing order, the others keep deadline and start number |
| `Timer.Timers.Tick` | src/clock.c:83-105 | one tick keeps the whole invariant of the timers, including when the tick wraps |
| `Ticks.Clock.AddThread` | src/thread.c:84-136 | the timer of every thread is one-shot and in the timer list if and only if the thread is asleep with a time limit; a new thread keeps this |
| `Ticks.Clock.Sleep` | src/thread.c:421-446 | the sleeper is suspended and its timer is in the list, due at now + tick; the same invariant |
| `Ticks.Clock.Block` | src/ipc.c:365-393 | a wait puts the timer in the list if and only if it is limited; the same invariant |
| `Ticks.Clock.ListResume` | src/thread.c:595-626 | the timer of a woken thread leaves the list; the same invariant |
| `Ticks.Clock.Tick` | src/clock.c:83-105 | a tick wakes exactly the threads whose deadline has come, each with -RT_ETIMEOUT, and no others; the remaining deadlines stay |
| `Ticks.FiredMeans` | src/timer.c:488-546 | the timers fired are exactly those of the threads that are due |
| `Ticks.SleepFor` | src/thread.c:421-446 | a thread that sleeps n ticks is asleep through n - 1 ticks and READY after the n-th |
| `ReadyIndex.FfsLowest` | src/kservice.c:1226-1240 | __rt_ffs is 0 exactly for 0 and otherwise one more than the lowest set bit |
| `ReadyIndex.SetClear` | src/scheduler.c:267-353 | setting or clearing one priority's mask changes that bit alone |
| `ReadyIndex.MarkAgrees` | src/scheduler.c:297-300 | inserting marks exactly the priority, in the 32-level and the two-level form |
| `ReadyIndex.UnmarkAgrees` | src/scheduler.c:338-349 | removing the last thread of a priority clears exactly its mark, and the group bit with the last one of eight |
| `ReadyIndex.HighestLowest` | src/scheduler.c:203-212 | the computed priority is the numerically lowest with a ready thread, in both forms |
| `Kernel.Kernel.constructor` | src/scheduler.c:120-147 | empty ready lists, empty index, no suspend list and no thread |
| `Kernel.Kernel.InsertThread` | src/scheduler.c:267-305 | READY, at the end of the list of its priority, index updated |
| `Kernel.Kernel.RemoveThread` | src/scheduler.c:313-353 | out of its list, index updated if the list of its priority is empty |
| `Kernel.Kernel.Schedule` | src/scheduler.c:191-258 | with the lock at zero the current thread is the first of the most urgent non-empty list; with the lock held nothing changes |
| `Kernel.Kernel.Start` | src/scheduler.c:154-179 | the first thread to run is the first of the most urgent list |
| `Kernel.Kernel.ExitCritical` | src/scheduler.c:379-401 | the schedule runs when the last lock is gone; a surplus call leaves the lock at zero |
| `Kernel.Kernel.Startup` | src/thread.c:203-234 | initial priority, masks computed, READY at the end of its list |
| `Kernel.Kernel.Yield` | src/thread.c:377-411 | with at least two threads in the list the running one goes to its end, otherwise nothing happens |
| `Kernel.YieldRotates` | src/thread.c:377-411 | a thread that yields in front of its list rotates it |
| `Kernel.Kernel.Sleep` | src/thread.c:421-437 | the running thread is suspended in no list with its timer armed |
| `Kernel.Kernel.SleepEnd` | src/thread.c:439-446 | when the sleeper runs again a timeout error is cleared and any other error stays |
| `Kernel.Kernel.TimeSlice` | src/clock.c:88-101 | a tick takes one from the slice of the running thread; with the last one the thread gets a new slice and goes behind the others of its priority; otherwise nobody moves |
| `Slices.RunSlice` | src/clock.c:88-101 | a thread with n ticks left in front of its list is still there with n - k left after k < n ticks, and after n ticks it has a full slice and stands at the end of the list |
| `Slices.Round` | src/clock.c:88-101 | left alone, the threads of the most urgent priority run in the order of their list, each for exactly its slice, and then everything is as before |
| `Kernel.Kernel.SetPriority` | src/thread.c:476-526 | a READY thread moves to the end of the list of the new priority, any other keeps its place; no suspend list changes |
| `Kernel.OrderSurvives` | src/thread.c:476-526 | changing the priority of a waiter, which does not move it, keeps the list ordered if and only if the new priority lies between those of its neighbours |
| `Kernel.Kernel.Suspend` | src/thread.c:554-584 | an error and no change unless READY |
| `Kernel.Kernel.Resume` | src/thread.c:595-626 | an error and no change unless SUSPEND; otherwise timer off and to the end of its ready list |
| `Kernel.Kernel.Timeout` | src/thread.c:636-657 | the assertion at its start never fails, because a thread timer is armed only while the thread is SUSPEND; the thread wakes with -RT_ETIMEOUT |
| `Kernel.Kernel.Delete` | src/thread.c:340-366 | a started thread leaves its list, index kept exact, and goes to the defunct list |
| `Kernel.Kernel.Exit` | src/thread.c:47-82 | the running thread leaves its list and closes; it goes to the defunct list unless it is a static thread without cleanup, which is only detached |
| `Kernel.Kernel.ListSuspend` | src/ipc.c:92-135 | the thread joins where the flag puts it |
| `Kernel.Kernel.FindPlace` | src/ipc.c:106-130 | the search loop stops at the first less urgent waiter |
| `Kernel.PlaceUrgent` | src/ipc.c:106-130 | insertion keeps the list ordered by urgency |
| `Kernel.PlaceSplits` | src/ipc.c:106-130 | everyone in front is at least as urgent and everyone behind strictly less, so equals keep order of arrival |
| `Kernel.Kernel.ListResume` | src/ipc.c:146-160 | the first waiter, and nobody else, becomes READY with its timer off |
| `Kernel.Kernel.ListResumeAll` | src/ipc.c:169-196 | every waiter becomes READY with -RT_ERROR; no other thread and no other suspend list changes |
| `Waits.StartWait` | src/ipc.c:365-393 | a caller that gives up the processor waits at its place; every other suspend list, error code, event field and priority stays, and no other thread stops |
| `Waits.WakeFirst` | src/ipc.c:146-160 | exactly the first waiter becomes READY, with RT_EOK; nothing else that another object sees changes |
| `Waits.ExpireWait` | src/thread.c:636-657 | exactly one waiter becomes READY, with -RT_ETIMEOUT; nothing else that another object sees changes |
| `Waits.CancelAll` | src/ipc.c:169-196 | exactly the waiters become READY, with -RT_ERROR, and no woken call is revised |
| `Semaphores.Semaphore.constructor` | src/ipc.c:211-232 | no waiter, the account starts with the value |
| `Semaphores.Semaphore.Take` | src/ipc.c:328-411 | taken, refused or waiting exactly as the value and the time say; waiting puts the thread at its place, timer armed only with a time limit |
| `Semaphores.Semaphore.Release` | src/ipc.c:435-469 | to the first waiter, which alone becomes READY, or into the value; value + successes + hand-offs + what the 16-bit value lost by wrapping equals initial value + releases, and a positive value means no waiter |
| `Semaphores.Semaphore.Return` | src/ipc.c:398-411 | a blocked take returns RT_EOK if and only if a release was handed to it |
| `Semaphores.Semaphore.Timeout` | src/ipc.c:328-411 | a waiter times out once and alone becomes READY; the account is unchanged |
| `Semaphores.Semaphore.Reset` | src/ipc.c:481-512 | exactly the waiters become READY and fail, the value is the low 16 bits of the argument |
| `Semaphores.Semaphore.Elsewhere` | src/ipc.c:328-512 | any step that leaves this suspend list and the calls in it alone keeps the invariant; a step that changes no priority of a waiter keeps the order |
| `Mutexes.Mutex.constructor` | src/ipc.c:525-546 | value 1, no owner, no hold |
| `Mutexes.Mutex.Take` | src/ipc.c:642-762 | nested, taken, refused or waiting exactly as owner and time say; a waiting thread lifts the owner to the more urgent of both priorities and inheritance holds afterwards; the invariant (value 1 iff no owner iff hold 0) is kept if and only if this is not the 256th nested take, where the 8-bit hold wraps |
| `Mutexes.Mutex.Release` | src/ipc.c:772-859 | only the owner releases; the last release restores the priority from acquisition and hands over to the first waiter, which alone becomes READY, or frees the mutex; inheritance holds for the new owner |
| `Mutexes.Mutex.HandOver` | src/ipc.c:820-840 | the first waiter owns the mutex with hold 1, its own priority recorded, at least as urgent as every remaining waiter |
| `Mutexes.Mutex.Return` | src/ipc.c:737-761 | a blocked take returns RT_EOK if and only if the thread owns the mutex |
| `Mutexes.Mutex.Timeout` | src/ipc.c:642-762 | a waiter times out and alone becomes READY; the owner stays at least as urgent as the others |
| `Mutexes.Mutex.Elsewhere` | src/ipc.c:642-859 | any step that leaves this suspend list and the calls in it alone keeps the invariant; inheritance survives unless it changes the priority of the owner or of a waiter |
| `Mutexes.FirstLeads` | src/ipc.c:820-840 | the first of an ordered list is at least as urgent as the rest |
| `Events.TurnsQuiet` | src/ipc.c:1020-1067 | after a round over the waiters, although CLEAR shrinks the set on the way, no condition of a remaining waiter is met |
| `Events.TurnsSplit` | src/ipc.c:1020-1067 | every waiter is either served or left, never both |
| `Events.MetGrows` | src/ipc.c:1029-1048 | a condition met by a smaller set is met by a larger one |
| `Events.DecideIsPoll` | src/ipc.c:1029-1058 | the send loop serves a waiter, delivers to it and clears exactly as a receive without waiting would at its turn |
| `Events.MetBits` | src/ipc.c:1122-1136 | with AND the condition holds if and only if every bit asked for is in the set, with OR alone if and only if some bit is, with neither never |
| `Events.MeetBits` | src/ipc.c:1142-1142 | what is received are the bits in both sets |
| `Events.AfterBits` | src/ipc.c:1145-1146 | with CLEAR exactly the bits asked for leave the set, without it none |
| `Events.AddedBits` | src/ipc.c:1018-1018 | a send adds exactly its bits |
| `Events.TurnsAnswer` | src/ipc.c:1029-1048 | every waiter that is served with AND gets all it asked for, with OR a part of it that is not empty |
| `Events.Event.Deliver` | src/ipc.c:1020-1067 | the loop over the list, with the next node read before a waiter leaves, performs the turns in order |
| `Events.Event.Send` | src/ipc.c:998-1077 | an error for the empty set; otherwise exactly the waiters whose poll succeeds at their turn become READY, each with what it received, and the object is quiet |
| `Events.Event.Recv` | src/ipc.c:1093-1199 | received, timed out or waiting exactly as set, option and timeout say; with AND what is received is the set asked for, with OR a part of it that is not empty; a new waiter's condition is not met |
| `Events.Event.Return` | src/ipc.c:1177-1198 | a blocked receive returns RT_EOK if and only if a send served it, with the set put aside for it: all it asked for with AND, a part of it that is not empty with OR |
| `Events.Event.Timeout` | src/ipc.c:1093-1199 | a waiter times out and alone becomes READY, the object stays quiet |
| `Events.Event.Reset` | src/ipc.c:1211-1239 | exactly the waiters become READY and fail, the set is empty |
| `Events.Event.Elsewhere` | src/ipc.c:998-1239 | any step that leaves this suspend list and the calls in it alone keeps the invariant, so no condition of a waiter becomes true unnoticed |
| `Mailboxes.RingPut` | src/ipc.c:1496-1503 | writing at in_offset appends to the bounded FIFO, across the end of the buffer |
| `Mailboxes.RingGet` | src/ipc.c:1643-1651 | reading at out_offset takes the oldest mail |
| `Mailboxes.Mailbox.constructor` | src/ipc.c:1253-1281 | empty mailbox of the given size, cut to 16 bits, size 0 included |
| `Mailboxes.Mailbox.Send` | src/ipc.c:1404-1522 | sent, full or waiting exactly as fill level and timeout say; sending makes the first waiting receiver READY; no lost wakeup: waiting receivers imply at most as many mails as woken receivers, which are READY and have not run, waiting senders at most as many free slots as woken senders |
| `Mailboxes.Mailbox.SendAgain` | src/ipc.c:1466-1494 | a woken sender, which is READY, returns its error, sends, gives up or waits again, keeping the same conditions |
| `Mailboxes.Mailbox.Recv` | src/ipc.c:1551-1674 | the oldest mail, nothing or waiting; receiving makes the first waiting sender READY; everything sent is received once and in order |
| `Mailboxes.Mailbox.RecvAgain` | src/ipc.c:1615-1641 | a woken receiver, which is READY, returns its error, receives, gives up or waits again, keeping the same conditions |
| `Mailboxes.Mailbox.SendTimeout` | src/ipc.c:1404-1522 | a waiting sender times out and alone becomes READY, no wakeup is lost |
| `Mailboxes.Mailbox.RecvTimeout` | src/ipc.c:1551-1674 | a waiting receiver times out and alone becomes READY, no wakeup is lost |
| `Mailboxes.Mailbox.Reset` | src/ipc.c:1686-1717 | exactly the members of both lists become READY and fail, every mail is dropped |
| `Mailboxes.Mailbox.Elsewhere` | src/ipc.c:1404-1717 | any step that leaves both suspend lists and the calls in them alone keeps the invariant, both wakeup conditions included |
| `MsgQueues.LinkedLast` | src/ipc.c:1965-1979 | linking behind the tail appends the message; tail is the last cell, all cells keep one place |
| `MsgQueues.LinkedFirst` | src/ipc.c:2052-2061 | linking in front of the head prepends the message |
| `MsgQueues.MessageQueue.constructor` | src/ipc.c:1738-1786 | as many cells as the pool has room for, all on the free list, last cell first, for alignments 4 and 8; message size and number of cells are cut to 16 bits |
| `MsgQueues.SizeKept` | src/ipc.c:1756-1762 | the aligned size is the least multiple of the alignment from the message size on, and a cell has room for that size if and only if it stays within 16 bits |
| `MsgQueues.CellsInside` | src/ipc.c:1773-1779 | the cells lie one behind the other inside the pool and do not overlap |
| `MsgQueues.MessageQueue.SendBegin` | src/ipc.c:1924-1956 | too long, full, or the first free cell in the sender's hands |
| `MsgQueues.MessageQueue.FillLast` | src/ipc.c:1958-1961 | the unprotected copy touches no message in the queue |
| `MsgQueues.MessageQueue.SendEnd` | src/ipc.c:1963-1998 | the message is the last of the queue, exactly the first receiver becomes READY, no wakeup is lost; all other cells in flight, filled or taken, are as before |
| `MsgQueues.MessageQueue.UrgentEnd` | src/ipc.c:2049-2080 | the message is the first of the queue, exactly the first receiver becomes READY, no wakeup is lost; all other cells in flight are as before |
| `MsgQueues.MessageQueue.Recv` | src/ipc.c:2095-2205 | the first message passes into the receiver's hands, or nothing, or waiting; entry is the queue length |
| `MsgQueues.MessageQueue.RecvAgain` | src/ipc.c:2168-2190 | a woken receiver, which is READY, returns its error, takes a message, gives up or waits again |
| `MsgQueues.MessageQueue.Copy` | src/ipc.c:2207-2208 | the buffer gets the message that was taken, cut to the smaller size; taken messages survive the other regions |
| `MsgQueues.MessageQueue.RecvEnd` | src/ipc.c:2210-2216 | the cell goes back to the free list |
| `MsgQueues.MessageQueue.Timeout` | src/ipc.c:2095-2200 | a waiting receiver times out and alone becomes READY, no wakeup is lost |
| `MsgQueues.MessageQueue.Reset` | src/ipc.c:2234-2278 | every queued cell becomes free, exactly the waiters become READY, cells in flight stay in their hands |
| `MsgQueues.TwoSendersOneReceiver` | src/ipc.c:1914-2216 | two sends and a receive with their unprotected copies interleaved: the receiver gets the message that was first, the two sent ones stand behind the rest in the order of their second regions |
| `MsgQueues.MessageQueue.Elsewhere` | src/ipc.c:1914-2278 | any step that leaves the suspend list and the calls in it alone keeps the invariant |
| `Systems.Kept` | src/ipc.c:62-196 | an object of any kind keeps its invariant through a step of another object or of a thread outside its calls, and its order unless the step changes the priority of one of its waiters or its owner |
| `Systems.System.Others` | src/ipc.c:62-196 | the same for all objects of the system at once |
| `Systems.System.Done` | src/ipc.c:62-196 | after a step of one object every other one is in order, and no list and no blocked call belongs to two objects |
| `Systems.System.constructor` | src/scheduler.c:120-147 | a system without objects |
| `Systems.System.NewSemaphore` | src/ipc.c:211-232 | a new semaphore joins the system as its initialisation left it, all others as before |
| `Systems.System.NewMutex` | src/ipc.c:525-546 | a new mutex joins the system as its initialisation left it, all others as before |
| `Systems.System.NewEvent` | src/ipc.c:889-905 | a new event joins the system as its initialisation left it, all others as before |
| `Systems.System.NewMailbox` | src/ipc.c:1253-1281 | a new mailbox joins the system as its initialisation left it, all others as before |
| `Systems.System.NewMessageQueue` | src/ipc.c:1738-1786 | a new message queue joins the system as its initialisation left it, all others as before |
| `Systems.System.SemTake` | src/ipc.c:328-411 | the whole effect of the object's own step, with the invariant and the order of every object of the system kept |
| `Systems.System.SemRelease` | src/ipc.c:435-469 | the whole effect of the object's own step, with the invariant and the order of every object of the system kept |
| `Systems.System.SemTimeout` | src/ipc.c:328-411 | the whole effect of the object's own step, with the invariant and the order of every object of the system kept |
| `Systems.System.SemReset` | src/ipc.c:481-512 | the whole effect of the object's own step, with the invariant and the order of every object of the system kept |
| `Systems.System.EventRecv` | src/ipc.c:1093-1199 | the whole effect of the object's own step, with the invariant and the order of every object of the system kept |
| `Systems.System.EventSend` | src/ipc.c:998-1077 | the whole effect of the object's own step, with the invariant and the order of every object of the system kept |
| `Systems.System.EventTimeout` | src/ipc.c:1093-1199 | the whole effect of the object's own step, with the invariant and the order of every object of the system kept |
| `Systems.System.EventReset` | src/ipc.c:1211-1239 | the whole effect of the object's own step, with the invariant and the order of every object of the system kept |
| `Systems.System.BoxSend` | src/ipc.c:1404-1522 | the whole effect of the object's own step, with the invariant and the order of every object of the system kept |
| `Systems.System.BoxSendAgain` | src/ipc.c:1466-1494 | the whole effect of the object's own step, with the invariant and the order of every object of the system kept |
| `Systems.System.BoxRecv` | src/ipc.c:1551-1674 | the whole effect of the object's own step, with the invariant and the order of every object of the system kept |
| `Systems.System.BoxRecvAgain` | src/ipc.c:1615-1641 | the whole effect of the object's own step, with the invariant and the order of every object of the system kept |
| `Systems.System.BoxSendTimeout` | src/ipc.c:1404-1522 | the whole effect of the object's own step, with the invariant and the order of every object of the system kept |
| `Systems.System.BoxRecvTimeout` | src/ipc.c:1551-1674 | the whole effect of the object's own step, with the invariant and the order of every object of the system kept |
| `Systems.System.BoxReset` | src/ipc.c:1686-1717 | the whole effect of the object's own step, with the invariant and the order of every object of the system kept |
| `Systems.System.QueueSendEnd` | src/ipc.c:1963-1998 | the whole effect of the object's own step, with the invariant and the order of every object of the system kept |
| `Systems.System.QueueUrgentEnd` | src/ipc.c:2049-2080 | the whole effect of the object's own step, with the invariant and the order of every object of the system kept |
| `Systems.System.QueueRecv` | src/ipc.c:2095-2205 | the whole effect of the object's own step, with the invariant and the order of every object of the system kept |
| `Systems.System.QueueRecvAgain` | src/ipc.c:2168-2190 | the whole effect of the object's own step, with the invariant and the order of every object of the system kept |
| `Systems.System.QueueTimeout` | src/ipc.c:2095-2200 | the whole effect of the object's own step, with the invariant and the order of every object of the system kept |
| `Systems.System.QueueReset` | src/ipc.c:2234-2278 | the whole effect of the object's own step, with the invariant and the order of every object of the system kept |
| `Systems.System.MutexTake` | src/ipc.c:642-762 | the whole effect of the object's own step, with the invariant of every object kept, and the order of all if the owner waits for no other object and owns no other mutex |
| `Systems.System.MutexRelease` | src/ipc.c:772-859 | the same, for the releasing thread |
| `Systems.System.MutexTimeout` | src/ipc.c:642-762 | the whole effect of the object's own step, with the invariant and the order of every object of the system kept |
| `Systems.System.Wake` | src/thread.c:636-657 | the end of a sleep makes exactly that thread READY and keeps the invariant and the order of every object |
| `Systems.System.SetPriority` | src/thread.c:476-526 | the effect on the thread, with the invariant of every object kept, and the order of all if the thread waits for none and owns no mutex |
| `Systems.System.Startup` | src/thread.c:203-234 | the thread is READY and, once the scheduler runs, the processor goes to the most urgent one; the invariant of every object is kept |
| `Systems.System.Schedule` | src/scheduler.c:191-258 | the scheduler decision, with every object as before |
| `Systems.System.ExitCritical` | src/scheduler.c:379-401 | the end of a critical section, with every object as before |
| `Systems.System.Suspend` | src/thread.c:554-584 | a thread in no call is suspended, with the invariant and the order of every object kept |
| `Systems.System.Exit` | src/thread.c:47-82 | a thread in no call closes, with the invariant and the order of every object kept |
| `Systems.System.Delete` | src/thread.c:340-366 | a thread in no call is deleted, with the invariant and the order of every object kept |
| `Systems.System.SignalAndSend` | src/ipc.c:435-1522 | releasing a semaphore and sending to a mailbox makes exactly the first waiter of each READY, as if the other object did not exist |
| `Systems.WaitAndWake` | src/ipc.c:328-469 | a thread that waits for a semaphore is READY again after its release |
| `Systems.FirstRun` | src/scheduler.c:120-179 | a run from the initialisation of the scheduler: the first thread starts, waits, is woken and is READY |
| `FinshVm.Machine.CallFunction` | components/finsh/finsh_ops.c:444-569 | the call instruction on the array stack is the call step of the byte-code semantics |
| `FinshVm.Machine.BinaryOp` | components/finsh/finsh_ops.c:32-45 | a binary instruction replaces the two top cells by the result of its operator (AddSub, Times, DivMod, Shifts, Bitwise) |
| `Kernel.Kernel.AddThread` | src/thread.c:84-136 | a new thread is INIT, in no list, with its initial priority and its timer off |
| `Kernel.Kernel.AddList` | src/ipc.c:73-79 | a new suspend list is empty, everything else unchanged |
| `Kernel.Kernel.FindHighest` | src/scheduler.c:203-217 | the index leads to the first thread of the most urgent list |
| `Kernel.Kernel.Block` | src/ipc.c:365-393 | a blocking thread is SUSPEND at its place in the list, its timer armed exactly when the wait is limited |
| `Mailboxes.Mailbox.Put` | src/ipc.c:1496-1522 | storing a mail makes the first waiting receiver READY and keeps both wakeup conditions, given a free place beyond those promised to woken senders |
| `Mailboxes.Mailbox.Get` | src/ipc.c:1643-1674 | taking a mail makes the first waiting sender READY and keeps both wakeup conditions, given a mail beyond those promised to woken receivers |
| `MemHeap.Memheap.Carve` | src/memheap.c:195-271 | the surgery of an allocation rebuilds the invariant and keeps all live bytes |
| `MsgQueues.MessageQueue.FillFirst` | src/ipc.c:2047-2047 | the unprotected copy of an urgent message touches no message in the queue |
| `MsgQueues.MessageQueue.TakeHead` | src/ipc.c:2192-2202 | unlinking the head removes the first message, and tail becomes NULL with the last |
| `MsgQueues.MessageQueue.Drain` | src/ipc.c:2250-2266 | the reset loop moves every queued cell to the free list |
| `Mutexes.Mutex.Inherit` | src/ipc.c:706-713 | the owner gets the more urgent of both priorities, nobody else changes |
| `Mutexes.Mutex.Restore` | src/ipc.c:812-818 | the owner gets back the priority from acquisition |
| `PageList.PageAllocator.Cut` | src/slab.c:258-273 | a run loses its first pages, or leaves the list when it fits |
| `Slab.SlabHeap.PutBack` | src/slab.c:861-877 | the chunk is free, and a zone that was full is listed again |
| `Slab.SlabHeap.Unhook` | src/slab.c:893-896 | the loop takes exactly that zone out of its list |
| `Slab.SlabHeap.GiveUp` | src/slab.c:908-931 | the first of three spare zones leaves and exactly its pages become free, no chunk in use is lost |
| `Slab.SlabHeap.GivePages` | src/slab.c:914-931 | the page map entries of the zone are cleared and exactly its pages become free |
| `SmallMem.SmallHeap.Take` | src/mem.c:290-351 | the found block is marked and split, used_mem and lfree follow |
| `SmallMem.SmallHeap.Move` | src/mem.c:457-466 | moving preserves the first bytes up to the smaller size and every other live area, and fails if and only if rt_malloc does |
| `Timer.Timers.SearchRow` | src/timer.c:342-364 | one row is searched up to the last node with a deadline that is not later |
| `Timer.Timers.InsertRows` | src/timer.c:373-389 | the last row always, each sparser one exactly while all groups of counter bits tested before are clear |
| `Timer.Timers.Expire` | src/timer.c:515-537 | one expiry: a periodic timer comes back at now + period, any other is gone |
| `Events.Event.Offer` | src/ipc.c:1029-1065 | one waiter's turn: served exactly when its poll would succeed, with the same set received and cleared |

## Left out

- Memory: the lock around every public call (and its double release on the failure path of `src/slab.c:614`, `src/slab.c:681`), hooks, statistics printing, `rt_calloc`, the module-private allocator.
- Contents.ClobberKeeps: a header field that is written again with the value it had when its block last existed does not count as a write.
- MemHeap.Memheap.Realloc: when the block has a free neighbour, sizes whose raised value plus 12 wraps around 32 bits are excluded, because there the growth test of the source is wrong; GrowFitsExact says exactly when, GrowFitsWrong gives a heap.
- MemHeap.Memheap.constructor: the 32-bit source accepts pools too small for two headers and writes past them; the model starts from pools with room for both, and alignments 1, 2, 4 and 8.
- SmallMem.SmallHeap.Realloc: the source releases the lock between reading the old size and allocating the new block; the model takes the call as one step.
- SmallMem.SmallHeap.constructor: regions that rt_system_heap_init rejects are not modelled; constants are those of `RT_ALIGN_SIZE` 8.
- Slab: `rt_realloc` (a composition of malloc, memcpy and free), `used_mem` and `max_mem`, memory contents, chunk alignment above the page size, a heap of less than one page.
- Slab.SlabHeap.Free: pointers that are neither live chunks nor live large allocations are not modelled, the source has undefined behaviour for them.
- Kernel: context switching, stacks, hooks, cleanup of closed threads; threads before start-up may not be deleted; `rt_thread_detach` and the object registry. `rt_thread_resume` and `rt_thread_delete` consist of two regions in the source and are one step here.
- Kernel.Kernel.Sleep: the number of ticks belongs to the timer; in the kernel alone a timer is armed or not, `Ticks` has the number.
- Kernel.Kernel.SetPriority: the source does not check that the new priority is below RT_THREAD_PRIORITY_MAX; the model requires it.
- Ticks: user timers may stand beside the thread timers, their functions are not modelled; the clock is joined to the thread operations the IPC objects are made of, not to each object again.
- Timer: soft timers, `rt_timer_control`, detach and delete, timeout functions that edit the list, one-shot timers that restart themselves.
- Timer.Timers.Start: the source asserts `init_tick < RT_TICK_MAX / 2`, here a precondition; more than one missed tick between checks is not modelled.
- Timer.Timers.Check: a periodic timer with a period of 0 is excluded, the loop of the source does not end on it (RearmShrinks).
- Mutex: inheritance for the FIFO flag, nesting of several mutexes and changes of the priority of an owner or a waiter by others; one saved priority per mutex does not give the guarantee there. `Inherits` is therefore kept for the PRIO flag only.
- Systems: a blocked call ends by its own object only, not by `rt_thread_resume`, `rt_thread_delete` or `rt_thread_suspend` of its thread; deleting objects is left out.
- IPC objects: detach and delete (a reset whose object vanishes), hooks, object names, the recalculation of the remaining time (it is a parameter).
- `src/mempool.c`, `src/device.c`, `src/object.c`, `src/module.c` and the drivers: registries and dispatch with easy members, or dependent on raw addresses.
- FinSH: lexer, parser, name lookup and line editing; byte- and word-typed expressions; `++` and `--` on system variables. The type pass is a function from trees to trees, it rewrites nodes in place in the source.
- FinshVm.Compiler.Compile: the source writes without looking at the size of text_segment; the code must fit.
- FinshMachine: stack use beyond the 64 cells, division by zero and calls with more than 16 arguments are one outcome, Fault; the source has undefined behaviour there. System calls are a parameter that maps arguments and memory to a result and memory.
