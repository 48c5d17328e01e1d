# A verified model of librseq

librseq offers restartable sequences (short per-CPU critical sections that the kernel
aborts when the thread is preempted, migrated or signalled) and a per-CPU memory pool
built for them. This project models both in Dafny and proves what they are for.

**Restartable sequences.** `Machine` is a transition system over any number of threads and
CPUs. A user step is one instruction of a helper; a kernel step preempts, schedules (anywhere),
signals or serves a membarrier, and aborts a thread whose instruction pointer is inside the
window of the published section. The seven helpers are the x86-64 instruction sequences, with the
aarch64 backward copy as a second form of the byte copy. `Sections` says what a section in progress
knows about memory; `Atomicity` proves that each call of a helper behaves like its pseudo-code in every
run in which no step disturbs a cell that another running section depends on, and `Returns` that it
returns -1 only for a cause, and otherwise what the pseudo-code returns, after boundedly many instructions. `PercpuList`,
`PercpuBuffer` (pointers and byte copies) and `PercpuCounter` (spinlock and counters), the structures
of the parameterised test, are proved to have only such runs, so that all their calls are atomic, and to conserve
what they hold. `MembarrierSwap` disturbs running sections on purpose: its manager swaps the list under
them and then flushes them with a barrier. There a commit is atomic exactly when its list is the published one,
and what is proved is what the barrier restores. `ListProgress`, `BufferProgress`, `CounterProgress` and
`SwapProgress` prove that each operation of these structures, when no kernel event hits its thread, gets done
what it is for, whatever the other threads do meanwhile. `Conservation` has the sums they share.

**Memory pool.** `Bits` has the 64-bit mask arithmetic; `AlignedMmap` carves aligned ranges;
`Layout` places blocks, items and free-list nodes; `CowMemory` gives every CPU its view of shared
pages, `ItemFill` sets and checks items through those views, and `CowRace` interleaves an
initialisation with other threads byte by byte. `Bitmap`, `Pool`, `Mempool`, `FreeListCheck`, `RangeList`,
`Destroy` and `PoolSet` are the allocator, its checks, its list of ranges, the destruction of a pool
and the pool set; `RangeMap` maps the memory of a range. `Pool` states the
invariant and the operations as relations on values, for all four robust/policy layouts;
`Mempool` has the class whose methods perform those operations in place.

Conventions of the model: memory is sequentially consistent; addresses and words are integers,
with the 64-bit masks, shifts and wrap-around of the source written out; a lock makes a region atomic; what the system answers
(mmap, munmap, the CPU a thread is scheduled on, where an abort lands) is a parameter or a free choice of
the run. `abort()` is an outcome. A page copy is one step.

## Model

| member | source | states |
|---|---|---|
| `Sections.KernelKeepsCalls` | doc/man/rseq.2:225-246 | a kernel step changes no memory and no call in progress, except that it may move a thread to its abort label |
| `Sections.KernelAbortsIff` | doc/man/rseq.2:225-246 | an event moves the ip of a thread, to the abort label, if and only if it hits the thread, which is registered, between the store of rseq_cs and the final store of the section that rseq_cs names; rseq_cs is cleared either way |
| `Sections.KernelSchedules` | doc/man/rseq.2:213-219 | after an event a preempted thread runs nowhere, a scheduled one on its CPU, which its cpu_id field then names, the others where they were |
| `Sections.AbortsAnywhere` | doc/man/rseq.2:85-92 | an abort can come at every instruction of the window, the final store included, by a signal or a migration to any free CPU |
| `Sections.KernelKeepsKInv` | doc/man/rseq.2:359-370 | every kernel event keeps: one running thread per CPU, and a running thread past its CPU comparison is on the CPU it asked for with its section published |
| `Sections.ExecKeepsActOk` | include/rseq/arch/x86/bits.h:22-518 | one instruction of any helper keeps: the final store ran once at the success label and never at another; the second CPU comparison never fails |
| `Sections.InstructionKeepsKInv` | include/rseq/arch/x86/bits.h:22-518 | a helper instruction of any running thread keeps the machine invariant for all threads |
| `Sections.CommitStep` | include/rseq/arch/x86/bits.h:22-80 | the last instruction of a section leaves through success and changes memory in one cell only: for each of the seven helpers the cell and the value its final store is documented to write |
| `Sections.SectionFrame` | include/rseq/abi.h:90-106 | what a section knows survives every change that spares the cells it depends on |
| `Sections.ForwardCopyKeepsSection` | include/rseq/arch/x86.h:106-190 | the forward byte loop keeps: the bytes copied so far are in place; a step of it changes no cell outside the destination |
| `Sections.BackwardCopyKeepsSection` | include/rseq/arch/aarch64.h:231-240 | the same for the aarch64 loop that copies from the last byte down |
| `Sections.ExecKeepsSection` | include/rseq/arch/x86/bits.h:22-518 | a section's own instructions keep its loads current and its speculative stores in place, and never reach a bug label |
| `Atomicity.CommitAtomicIff` | include/rseq/pseudocode.h:35-139 | the final store equals the whole pseudo-code run at that instant if and only if the section's loads and speculative stores are still valid then, or it adds zero; overlapping copies included |
| `Atomicity.OnlyCommitWrites` | include/rseq/arch/x86/bits.h:338-405 | before the commit a section changes only the cells it may write speculatively |
| `Atomicity.BranchIsPseudo` | include/rseq/pseudocode.h:35-139 | a section takes its comparison branch only where the pseudo-code run at that instant would; `Returns` has the converse |
| `Atomicity.StepKeepsInv` | include/rseq/arch/x86/bits.h:22-518 | every undisturbing step of anyone keeps the invariant of all sections |
| `Atomicity.HelpersAreAtomic` | include/rseq/pseudocode.h:35-139 | in every undisturbed run each single instruction of a helper is the atomic pseudo-code, a branch the pseudo-code takes, or invisible outside speculative cells; no bug label is reached |
| `Atomicity.CallsAreAtomic` | include/rseq/pseudocode.h:35-139 | in every undisturbed run each call that returns was entered before; if it returns 0 exactly one instruction in between had the whole effect of the pseudo-code at that instant, if 1 the pseudo-code refused at some instant in between, and no other instruction of it changed a cell outside its speculative ones |
| `Atomicity.ReturnValueTellsCommit` | include/rseq/pseudocode.h:35-139 | in every run a call returns 0 if and only if its final store ran, exactly once; an unregistered thread always gets -1 |
| `Returns.MinusOneHasCause` | include/rseq/arch/x86/bits.h:63-80 | in every undisturbed run a call returns -1 only if its CPU differed from cpu_id at the first comparison, or an event hit its registered thread inside the section |
| `Returns.OneIsRefused` | include/rseq/pseudocode.h:35-139 | ... and 1 only if the pseudo-code gave up at one of its steps |
| `Returns.AbortsAtCpuCheck` | include/rseq/arch/x86/bits.h:22-518 | an instruction goes to the abort label if and only if it is the first cpu_id comparison and it fails |
| `Returns.GoesOnUnlessRefused` | include/rseq/pseudocode.h:35-139 | on the CPU asked for, a section before its commit goes on unless the pseudo-code gives up at that instant |
| `Returns.RefusedDiffers` | include/rseq/pseudocode.h:35-139 | where the pseudo-code gives up a section never reaches its commit, and leaves through its comparison label only |
| `Returns.StepsAreBounded` | include/rseq/arch/x86.h:106-190 | in every undisturbed run a call executes at most a number of instructions that depends on the helper and the length copied |
| `Returns.CallGoesOn` | include/rseq/arch/x86/bits.h:22-518 | in every run a running thread inside a helper can execute its next instruction or return |
| `Returns.UndisturbedReturns` | include/rseq/pseudocode.h:35-139 | in every undisturbed run a call of a registered thread that asks for the CPU it is on, and that no event hits, returns exactly what the pseudo-code returns at its commit or branch, where it has its whole effect or none |
| `PercpuList.PopCommits` | tests/param_test.c:705-738 | the commit of a pop takes exactly the first node off the list of the CPU it runs on |
| `PercpuList.PushCommits` | tests/param_test.c:672-699 | the commit of a push puts the held node in front of the current list, also when the head was popped and pushed again since it was read |
| `PercpuList.MoveKeepsInv` | tests/param_test.c:756-781 | every kernel event, instruction and C statement keeps the list invariant |
| `PercpuList.RunIsQuiet` | tests/param_test.c:672-738 | every run of the list is an undisturbed run of the machine |
| `PercpuList.CallsAreAtomic` | include/rseq/pseudocode.h:35-139 | so every push and pop call that returns, in every run of the list, is its pseudo-code at one instant or nothing |
| `ListProgress.UndisturbedReturns` | include/rseq/pseudocode.h:35-139 | so every push and pop call that no event hits returns what its pseudo-code returns |
| `ListProgress.UndisturbedPop` | tests/param_test.c:705-738 | in every run a thread that no kernel event hits pops, from a list with nodes, exactly the first one, after boundedly many moves of its own, whatever the others do meanwhile |
| `ListProgress.UndisturbedEmptyPop` | tests/param_test.c:705-738 | ... and from an empty list it gives up |
| `ListProgress.UndisturbedPush` | tests/param_test.c:672-699 | ... and it puts the node it holds in front of the list of its CPU |
| `ListProgress.GivesUpOnEmpty` | tests/param_test.c:731-733 | in every run, disturbed or not, a pop gives up only when the list was empty at some moment of its call |
| `ListProgress.IterationEnds` | tests/param_test.c:756-781 | an iteration ends only by a pop that gave up or by a push that committed |
| `ListProgress.AsksForItsCpu` | tests/param_test.c:683-684 | a registered thread asks for the CPU it is on |
| `ListProgress.StartsOver` | tests/param_test.c:678-698 | a call that failed starts over: the next statement asks for the CPU the thread is on by then |
| `PercpuList.NeverStuck` | tests/param_test.c:756-781 | a running thread always has a next step |
| `PercpuList.ListIsSafe` | tests/param_test.c:672-738 | over every run each list is NULL-terminated without repetition, the lists are disjoint, and lists and hands have every node exactly once |
| `PercpuList.AllAccountedFor` | tests/param_test.c:756-781 | when all threads are between iterations the lists hold all the nodes |
| `PercpuList.ComparesTwiceAgree` | include/rseq/arch/x86/bits.h:40-44 | the second comparisons never disagree in any run of the list |
| `PercpuBuffer.SpeculationIsHarmless` | tests/param_test.c:883-954 | whatever instruction an abort lands on, speculation changed no slot below an offset and nothing a thread holds |
| `PercpuBuffer.PushCommits` | tests/param_test.c:883-918 | the commit of a push appends exactly the item in hand |
| `PercpuBuffer.PopCommits` | tests/param_test.c:920-954 | the commit of a pop removes exactly the top item, whole; `BufferProgress` says when a pop commits |
| `PercpuBuffer.MoveKeepsInv` | tests/param_test.c:883-954 | every move keeps the buffer invariant, for pointers and for byte-copied items, forwards and backwards |
| `PercpuBuffer.RunIsQuiet` | tests/param_test.c:883-954 | every run of the buffers is an undisturbed run of the machine |
| `PercpuBuffer.CallsAreAtomic` | include/rseq/pseudocode.h:35-139 | so every call of the buffers, with pointers or byte copies, is its pseudo-code at one instant or nothing |
| `BufferProgress.UndisturbedReturns` | include/rseq/pseudocode.h:35-139 | so every call of the buffers that no event hits returns what its pseudo-code returns |
| `BufferProgress.UndisturbedPop` | tests/param_test.c:920-954 | in every run a thread that no kernel event hits pops, from a buffer with items, exactly the top one, after boundedly many moves of its own, whatever the others do meanwhile |
| `BufferProgress.UndisturbedPush` | tests/param_test.c:883-918 | ... and puts the item it holds on top of the buffer of its CPU when there is room |
| `BufferProgress.GivesUpIff` | tests/param_test.c:934-939 | in every run a pop gives up if and only if the buffer of the CPU it asked for is empty at that move |
| `BufferProgress.FindsFullIff` | tests/param_test.c:899-902 | in every run a push finds its buffer full if and only if it has buflen items at that move |
| `BufferProgress.IterationEnds` | tests/param_test.c:994-1006 | an iteration ends only by a pop that found its buffer empty or by a push that committed |
| `BufferProgress.AsksForItsCpu` | tests/param_test.c:897-898 | a registered thread asks for the CPU it is on |
| `BufferProgress.StartsOver` | tests/param_test.c:890-916 | a call that failed starts over: the next statement asks for the CPU the thread is on by then |
| `PercpuBuffer.NeverStuck` | tests/param_test.c:883-954 | a running thread that found no full buffer always has a next step |
| `PercpuBuffer.BufferIsSafe` | tests/param_test.c:883-954 | over every run the slots below the offsets and the hands have exactly the initial items, and every offset is between 0 and the capacity |
| `PercpuBuffer.PoppedItemsAreWhole` | tests/param_test.c:1126-1206 | every item a byte-copying pop returns is one of the complete items pushed |
| `PercpuBuffer.PushNeverFull` | tests/param_test.c:883-918 | with room for all items in each buffer no push finds its buffer full |
| `PercpuBuffer.ComparesTwiceAgree` | include/rseq/arch/x86/bits.h:280-286 | the second comparisons never disagree in any run of the buffers |
| `PercpuCounter.LockCommits` | tests/param_test.c:418-444 | the commit of a lock section takes a lock nobody owns |
| `PercpuCounter.AddCommits` | tests/param_test.c:564-596 | the commit of an add adds one to one counter and to one thread's account |
| `PercpuCounter.UnlockMove` | tests/param_test.c:446-454 | the release, possibly from another CPU, frees exactly the owner's lock and keeps locks, locals and sums |
| `PercpuCounter.MoveKeepsInv` | tests/param_test.c:456-482 | every move keeps the lock and counter invariant |
| `PercpuCounter.RunIsQuiet` | tests/param_test.c:418-482 | every run of the lock and the counters is an undisturbed run of the machine |
| `PercpuCounter.CallsAreAtomic` | include/rseq/pseudocode.h:35-139 | so every lock and add call is its pseudo-code at one instant or nothing |
| `PercpuCounter.UndisturbedReturns` | include/rseq/pseudocode.h:35-139 | so every lock and add call that no event hits returns what its pseudo-code returns |
| `PercpuCounter.AsksForItsCpu` | tests/param_test.c:425-431 | a registered thread asks for the CPU it is on |
| `CounterProgress.UndisturbedWork` | tests/param_test.c:418-444 | in every run a thread that no kernel event hits takes a free lock of its CPU, and completes an add, after boundedly many moves of its own |
| `CounterProgress.StartsOver` | tests/param_test.c:422-438 | a call that failed starts over: the next statement asks for the CPU the thread is on by then |
| `CounterProgress.OwnerReleases` | tests/param_test.c:446-482 | in every run the owner of a lock counts its region once and releases the lock with its fourth move, wherever it has been moved to by then |
| `CounterProgress.NeverStuck` | tests/param_test.c:564-596 | a running thread always has a next step |
| `PercpuCounter.MutualExclusion` | tests/param_test.c:418-454 | over every run at most one thread owns a CPU's lock, and where the release asserts that the lock is taken, it is |
| `PercpuCounter.NothingLost` | tests/param_test.c:456-482 | over every run the protected counters sum to the completed regions and the others to the successful adds |
| `PercpuCounter.IterationsCount` | tests/param_test.c:579-583 | in every run a thread between two iterations has completed as many locked regions and adds as it has begun iterations of each: aborted attempts are retried |
| `PercpuCounter.SumsAreIterations` | tests/param_test.c:659-663 | when all threads are between iterations the counters sum to the iterations begun, the final assertion of both tests |
| `PercpuCounter.ComparesTwiceAgree` | include/rseq/arch/x86/bits.h:40-44 | the second comparisons never disagree in any run of the lock and the counters |
| `MembarrierSwap.BarrierFlushes` | tests/param_test.c:1571-1615 | after the barrier on a CPU no section there is past its first instructions |
| `MembarrierSwap.CommitSparesFlushed` | include/rseq/arch/x86/bits.h:202-253 | a commit never changes the node of a list that is flushed on that CPU |
| `MembarrierSwap.MoveKeepsInv` | tests/param_test.c:1432-1467 | every move of workers, manager and kernel keeps the invariant |
| `MembarrierSwap.SwapIsSafe` | tests/param_test.c:1571-1625 | over every run the manager's comparisons find what it noted, and both lists together count the successful increments |
| `MembarrierSwap.IterationsCount` | tests/param_test.c:1449-1459 | a worker between two iterations has completed as many increments as it has begun iterations |
| `MembarrierSwap.TotalIsIterations` | tests/param_test.c:1617-1625 | when all workers are between iterations the two lists together count the iterations begun, the final validation of the test |
| `MembarrierSwap.AsksForItsCpu` | tests/param_test.c:1453-1456 | a registered worker asks for the CPU it is on |
| `SwapProgress.UndisturbedIncrement` | tests/param_test.c:1449-1459 | in every run a worker that no kernel event and no barrier hits completes an increment after boundedly many moves of its own, whatever the manager does |
| `SwapProgress.StartsOver` | tests/param_test.c:1449-1459 | an increment that failed starts over on the CPU the worker is on by then |
| `SwapProgress.ManagerGoesRound` | tests/param_test.c:1571-1615 | in every run the number of statements of the manager decides where it is in its round and which list is published: no worker holds it up |
| `SwapProgress.BeginsWhenPublished` | tests/param_test.c:1446-1447 | a waiting worker begins with its first move after the first list is published, and not before |
| `SwapProgress.NeverStuck` | tests/param_test.c:1430-1467 | a running worker and the manager always have a next step |
| `MembarrierSwap.RetiredListIsStable` | tests/param_test.c:1571-1615 | from the barrier until the list is published again no step changes its node on that CPU |
| `MembarrierSwap.CommitAtomicIffPublished` | include/rseq/arch/x86/bits.h:202-253 | in every reachable state a commit equals the pseudo-code at that instant if and only if the list it picked up is the published one |
| `MembarrierSwap.SwapMakesCommitStale` | include/rseq/arch/x86/bits.h:202-253 | without the barrier the helper is not atomic: a run from the initial state, with the second list published, in which the next instruction increments the node of the first list |
| `MembarrierSwap.ComparesTwiceAgree` | include/rseq/arch/x86/bits.h:211-219 | in every run of the swap an increment leaves through success or abort, never through a bug label |
| `Bits.Fls64` | src/rseq-utils.h:15-48 | the six shift stages return the length of the argument in bits |
| `Bits.CountOrderLeast` | src/rseq-utils.h:90-101 | the count order is the least order whose power of two is at least x |
| `Bits.CountOrderRange` | src/rseq-utils.h:90-101 | the order is at most 64, and 64 exactly above 2^63 |
| `Bits.IsPow2Exact` | src/rseq-utils.h:121-125 | the test accepts exactly zero and the powers of two |
| `Bits.OffsetAlignLeast` | src/rseq-utils.h:127-135 | the wrapped and masked difference is the least distance to an aligned address |
| `Bits.LowIsMod` | src/rseq-mempool.c:644-645 | the split of a word at bit k is the quotient and remainder by 2^k that the shifts and masks compute |
| `AlignedMmap.AlignedMmapAnonymous` | src/rseq-mempool.c:617-699 | the sums of lengths wrap at 2^64 as in the source; invalid arguments, the failing assertion, no memory and abort (a failing munmap of an end that has to be trimmed) each have their exact condition; otherwise exactly the wrapped sum of header and length stays mapped, inside the mapping, with an aligned base, and no other assertion fails |
| `AlignedMmap.AssertionFailsIff` | src/rseq-mempool.c:644-647 | the page count asked for is below the one kept if and only if the wrapped sum kept, plus the alignment less a page, reaches 2^64 |
| `AlignedMmap.KeepsAllIff` | src/rseq-mempool.c:644-647 | header and length are kept in full and no assertion fails if and only if header, length and alignment less a page together stay below 2^64 |
| `AlignedMmap.HalfSpaceAsserts` | src/rseq-mempool.c:644-647 | a length and alignment of 2^63 behind any header of at least a page pass the argument checks and fail the assertion |
| `AlignedMmap.ExtraIsPages` | src/rseq-mempool.c:663-672 | the bytes skipped in front are whole pages, at least one page short of the alignment |
| `Layout.Translations` | src/rseq-mempool.c:211-249 | the two pointer translations are inverse in all four layouts, and a node is the item's offset in the link block |
| `Layout.MaskRecovers` | src/rseq-mempool.c:1163-1169 | masking any pointer into a range recovers that range's base and the offset |
| `Layout.PointerRecovers` | src/rseq-mempool.c:1071-1076 | from an item's pointer or node malloc and free recover its range, offset and index |
| `Layout.BytesDisjoint` | src/rseq-mempool.c:195-209 | two bytes of items on any blocks share an address if and only if they are the same byte of the same item in the same block |
| `Layout.ConfigureAccepts` | src/rseq-mempool.c:926-998 | accepted attributes give a well-formed pool whose item length is the least power of two that holds a link and the length asked for |
| `Layout.ConfigureExact` | src/rseq-mempool.c:949-998 | accepted are exactly a known policy, a positive number of CPUs and a power-of-two stride that holds a page and an item |
| `Layout.ConfigureKeeps` | src/rseq-mempool.c:949-1004 | an accepted pool has the init values, the number of CPUs, the robustness, the limit of ranges and the poison, set or default, that its attributes say |
| `CowMemory.StoreCpuSees` | src/rseq-mempool.c:784-798 | a store through a CPU's private mapping, page copy included, changes one location for one CPU |
| `CowMemory.StoreSharedSees` | src/rseq-mempool.c:774-783 | a store to the init values is seen by exactly the CPUs that have not copied the page |
| `ItemFill.CompareCpu` | src/rseq-mempool.c:251-267 | the word loop answers whether a CPU sees the value throughout the item |
| `ItemFill.SetItem` | src/rseq-mempool.c:269-300 | after zeroing or poisoning, the init values and all CPUs see the value and nothing else changed for anyone; a CPU that agreed, or will see the init values, gets no page copied |
| `ItemFill.CheckItem` | src/rseq-mempool.c:384-403 | the poison check passes if and only if every view of the item holds the poison |
| `CowRace.EveryCpuSeesTheValue` | src/rseq-mempool.c:302-327 | in every byte-wise interleaving with other threads' stores and page copies every CPU sees the whole value when the initialisation returns |
| `CowRace.OtherItemsUnaffected` | src/rseq-mempool.c:302-327 | at every moment every CPU and the init values have of other items, also of those being initialised by other threads, exactly what they would have had the initialisation not run |
| `CowRace.ItemIsWhole` | src/rseq-mempool.c:195-209 | what that needs of an item, that it lies in one page or shares none, holds of every item: aligned and a power of two long |
| `CowRace.RunRepairsCopy` | src/rseq-mempool.c:302-327 | in a pool with init values the repair of a CPU's bytes starts only where that CPU has copied a page of the item |
| `CowRace.NeverStuck` | src/rseq-mempool.c:302-327 | the initialising thread has a next step until it returns |
| `CowRace.StepsAreBounded` | src/rseq-mempool.c:302-327 | ... and returns after boundedly many steps of its own, in every interleaving |
| `CowRace.StoringInitValuesIsNotEnough` | tests/mempool_cow_race_test.c:7-14 | without the repair a concrete page copy leaves a CPU without the value |
| `Bitmap.SetSlot` | src/rseq-mempool.c:1028-1050 | the test sees whether the slot is set; otherwise exactly that slot is set and the weight grows by one |
| `Bitmap.ClearSlot` | src/rseq-mempool.c:1138-1161 | the test sees whether the slot is clear; otherwise exactly that slot is cleared and the weight drops by one |
| `Bitmap.CountLeaks` | src/rseq-mempool.c:575-598 | the leak count is the weight of the bitmap, zero if and only if no slot is set |
| `Bitmap.Create` | src/rseq-mempool.c:471-486 | a new bitmap has a slot per item and none set |
| `Bitmap.TestMask` | src/rseq-mempool.c:1040-1049 | and-ing with 1 << i reads bit i |
| `Bitmap.ClearMask` | src/rseq-mempool.c:1160-1160 | and-ing with the complement undoes setting the bit |
| `Pool.ReuseKeepsInv` | src/rseq-mempool.c:1066-1080 | taking the first free item keeps the pool invariant |
| `Pool.BumpKeepsInv` | src/rseq-mempool.c:1102-1106 | taking the next unused item keeps the pool invariant |
| `Pool.ExtendKeepsInv` | src/rseq-mempool.c:1093-1101 | a new head range keeps the pool invariant: all other ranges are full |
| `Pool.ReleaseKeepsInv` | src/rseq-mempool.c:1163-1187 | freeing a live item, which leaves the poison in every view of it where the pool has one, keeps the pool invariant, with the link in the dedicated block, the init values or CPU 0 |
| `Pool.StoreKeepsInv` | src/rseq-mempool.c:1111-1118 | stores inside live items, by clients or while initialising, keep the pool invariant |
| `Pool.RunKeepsInv` | src/rseq-mempool.c:1052-1187 | over every run each used item is live or on the free list, once; the list is linked in memory; bits are the live items; freed items of robust pools hold the poison |
| `Pool.ItemsAreDisjoint` | src/rseq-mempool.c:195-249 | in every reachable state the bytes of any two used items are disjoint across items, CPUs and blocks |
| `Pool.LinksSpareLiveItems` | src/rseq-mempool.c:1179-1185 | in every reachable state no link overlaps a byte of a live item on any CPU or in the init values |
| `Pool.ItemsAreAccountedFor` | src/rseq-mempool.c:505-548 | all items are never used, freed or live, and the bitmap weights count what is neither never used nor freed |
| `Pool.NeverUsedInHead` | src/rseq-mempool.c:1081-1106 | only the head range has unused items |
| `Pool.ExactCapacity` | src/rseq-mempool.c:750-754 | with a limit of R ranges malloc is exhausted if and only if R times the range capacity items are live |
| `RangeMap.MapRange` | src/rseq-mempool.c:739-861 | the lengths and the system's answers decide exactly: abort when the assertion fails or an end to trim cannot be unmapped, failure when the length wraps to 0 or the mapping or the set-up fails, a range with fewer bytes mapped than it has, or a fresh aligned range apart from the others, mapped in full |
| `RangeMap.FitsIff` | src/rseq-mempool.c:757-764 | the ranges of a configuration are asked for in full if and only if header, range and stride less a page together stay below 2^64 |
| `RangeMap.HalfSpaceStride` | src/rseq-mempool.c:757-764 | with a stride of 2^63 no range is ever mapped: an odd number of blocks fails the assertion, an even number wraps to no length |
| `RangeMap.HalfSpacePoolIsAccepted` | src/rseq-mempool.c:926-998 | creation accepts a global pool with a stride of 2^63, whose first range fails the assertion |
| `RangeMap.WrappedPoolIsAccepted` | src/rseq-mempool.c:758-764 | creation accepts 2^30 + 1 CPUs with a stride of 2^34, whose range length wraps to one stride: only the block of CPU 0 is mapped |
| `RangeMap.NoMemoryIff` | src/rseq-mempool.c:750-754 | while the system maps what it is asked for, malloc from a pool limited to R ranges that fit returns no memory if and only if R times the range capacity items are live |
| `RangeMap.CreatedCapacity` | src/rseq-mempool.c:750-754 | a created pool is exhausted if and only if its attributes limit the ranges and that limit times the range capacity items are live |
| `Mempool.TurnSlot` | src/rseq-mempool.c:1028-1050 | an item's slot is turned, failing exactly when it is turned already; no bitmap, no failure |
| `Mempool.TakeNode` | src/rseq-mempool.c:1066-1079 | the item of the first node, the next node and the slot; fails exactly when the poison is damaged or the slot is set |
| `Mempool.PutNode` | src/rseq-mempool.c:1174-1185 | in a pool with a poison every view of every word of the item is poisoned, in others unchanged, but for the link word where it overlays the item (CPU 0, or the init values and the CPUs that share their page); the item is linked in front of the old head; no other item and no other link changes |
| `Mempool.CheckRangePoison` | src/rseq-mempool.c:551-561 | the range check passes if and only if every used item holds the poison |
| `Mempool.ListPasses` | src/rseq-mempool.c:501-549 | in a reachable state the free-list check passes if and only if no item is live |
| `Mempool.Mempool.CreateRange` | src/rseq-mempool.c:739-862 | a range is added at the head, fails, aborts or comes with too few bytes mapped, each exactly when the limit, the lengths and the system say so; unless it is added nothing changes |
| `Mempool.Mempool.Malloc` | src/rseq-mempool.c:1052-1120 | the pointer of an item that was not live, from the free list, the head or a new range; exact conditions, in terms of the state before, for invalid, no memory, abort and a range not mapped in full, with the state unchanged then; no alarm |
| `Mempool.Mempool.Zmalloc` | src/rseq-mempool.c:1108-1130 | the same exact conditions, and all CPUs and the init values see the new item zeroed while no other item changes for anyone |
| `Mempool.Mempool.ClearAllocSlot` | src/rseq-mempool.c:1138-1172 | for any pointer into a range the double-free test of a robust pool aborts if and only if the item that holds the address is not live |
| `Mempool.Mempool.Free` | src/rseq-mempool.c:1163-1187 | a robust pool aborts if and only if the item holding the pointer is not live; otherwise the item, scrubbed as above, heads the free list |
| `Mempool.Mempool.StoreToCpu` | src/rseq-mempool.c:1111-1118 | a client's store changes one location for one CPU and keeps the pool valid |
| `Mempool.Mempool.StoreToInit` | src/rseq-mempool.c:302-312 | a store to the init values of a live item changes one of them and keeps the pool valid |
| `Mempool.Mempool.DestroyChecks` | src/rseq-mempool.c:501-573 | whatever the memory of freed items holds, the free-list and poison checks of a robust pool pass if and only if no item leaked and every freed item has its poison in every view |
| `Mempool.LeaksAreLive` | src/rseq-mempool.c:575-598 | the leak count of a range is zero if and only if no live item is in that range |
| `FreeListCheck.PercpuAddrInPool` | src/rseq-mempool.c:488-499 | the walk answers whether an address lies in the used part of a range |
| `FreeListCheck.CheckFreeList` | src/rseq-mempool.c:501-549 | for any link contents it terminates, follows only nodes in used parts, and passes if and only if the links form a NULL-terminated list as long as the used items are many |
| `FreeListCheck.ListIsAcyclic` | src/rseq-mempool.c:518-542 | a list that ends at NULL visits no node twice |
| `FreeListCheck.CheckedListIsPermutation` | src/rseq-mempool.c:501-549 | a list that passes and is item-aligned holds every used item exactly once |
| `RangeList.ListAdd` | src/list.h:50-58 | on a ring of nodes q it leaves the ring of the new node followed by q |
| `RangeList.ListDel` | src/list.h:70-83 | on a ring it leaves the ring without that node, whose own links stay |
| `RangeList.DestroyFirst` | src/rseq-mempool.c:600-615 | one range: off the list first; a leak in its bitmap stops there, a failing munmap puts it back in front, otherwise it is unmapped; all its fields are read while it is mapped |
| `RangeList.DestroyRanges` | src/rseq-mempool.c:910-917 | every node is touched only while mapped; the ranges go in order until one has a leak in its bitmap (abort, off the list) or its munmap fails (kept on the list), and the list holds exactly the others; in a forked child only the two header pages of each range go |
| `RangeList.MappingsAccessible` | src/rseq-mempool.c:864-888 | only the marker of a COW_INIT pool's first range decides |
| `RangeList.MarkerAddress` | src/rseq-mempool.c:876-881 | masking the address of the range structure finds the first header page |
| `Destroy.CheckPool` | src/rseq-mempool.c:501-573 | the free-list and poison checks of destroy stop a leak exactly in a robust pool whose mappings are accessible |
| `Destroy.DestroyPool` | src/rseq-mempool.c:890-924 | destroy as a whole, in the parent and in a forked child: it aborts if and only if the pool is robust and there is a leak where the mappings are accessible or in a range that comes no later than the first failing munmap; otherwise it keeps ranges if and only if some munmap fails, exactly those from there on; the bytes removed are those of the ranges before, with their headers, in a child the headers only |
| `PoolSet.PoolSet.AddPool` | src/rseq-mempool.c:1219-1235 | the pool takes the slot of its order unless it is taken |
| `PoolSet.PoolSet.FirstFit` | src/rseq-mempool.c:1250-1259 | the first present pool from an order on, which fits |
| `PoolSet.PoolSet.Malloc` | src/rseq-mempool.c:1237-1278 | the retry loop ends; it allocates from the smallest pool that fits and has room, reports no memory exactly when every fitting pool is exhausted, aborts or gets a range not mapped in full exactly when that pool does, and pools tried in vain are unchanged |
| `PoolSet.LeastOrder` | src/rseq-mempool.c:1245-1247 | the loop starts at the least order that fits the length |

## Findings

What the proofs show the code not to do, with the exact condition:

- aligned_mmap_anonymous (src/rseq-mempool.c:644-647): its first assertion can fail on arguments that pass its checks, because both sums wrap at 2^64 (`AssertionFailsIff`, `HalfSpaceAsserts`). Everything it is asked for is mapped if and only if header, length and alignment less a page stay below 2^64 (`KeepsAllIff`).
- rseq_mempool_range_create (src/rseq-mempool.c:758-764): creation does not bound the number of CPUs by the stride, so that the length of a range can wrap, and fewer bytes are mapped than the blocks of the CPUs take (`WrappedPoolIsAccepted`). Ranges are mapped in full if and only if `RangeFits` (`FitsIff`), which a caller can compute from the attributes.
- The load-add-load-load-add-store helper (include/rseq/arch/x86/bits.h:202-253) is not atomic while the list it reads is swapped (`SwapMakesCommitStale`); it is exactly when the list it picked up is the published one (`CommitAtomicIffPublished`).
- rseq_mempool_destroy (src/rseq-mempool.c:910-923) returns 0 also when a munmap fails and ranges stay.

## Left out

- Weak memory: barriers and the release variants are not modelled; memory is sequentially consistent.
- The real mmap, munmap, memfd, madvise and mutexes: their outcomes are parameters; a mapping is page-aligned and apart from the others, and a lock makes its region atomic.
- NUMA placement (move_pages batches) and the init callback: a failing callback is one of the set-up failures of a range.
- Other architectures' helpers, the i386 half and the 32-bit fls: the same sequences and stages again.
- mm_cid indexing: the index a thread compares is the CPU it runs on, or -1 before registration; the concurrency id, which is another number and starts at 0, is not modelled, for registered threads either.
- Signal handler bodies: a signal aborts the section; what a handler would do is not modelled.
- The page copy inside the kernel is one step: a copy that itself takes time while the init values change is not modelled.
- Contents of a new mapping: the pool invariant needs nothing of them, so they are arbitrary rather than zero.
- Item lengths above 2^63, for which the shift by 64 is undefined in C: the model refuses them because no stride is that large.
- Wrap-around of counters and offsets at 2^64 in the test structures: the counts are unbounded.
- The comparisons under RSEQ_COMPARE_TWICE are present or absent by a flag; when compiled out they are empty instructions, so that both builds share one numbering.
- The content that the pool set's malloc_init leaves: the code zeroes the item where its header announces a copy of the initial value.
- The return code of destroy when munmap fails: the code returns 0; the model has the outcome and the state of the list.
- Freeing the pool structure, its name and the lock, and the attribute setters: settled by reading one branch.
- Mempool.Mempool.Free: a pointer inside a live item but not at its start is not modelled beyond the slot test (`ClearAllocSlot`), because the source demands the pointer malloc returned.
- Mempool.Mempool.Malloc: what the code does with a range that is not mapped in full (outcome Short) is not modelled: it goes on to remap and use memory it was not given.
- Mempool.Mempool.DestroyChecks: reads of link words at addresses that are no item's node are left arbitrary.
