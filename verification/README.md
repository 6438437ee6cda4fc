# Verified model of the kernel, secure OS and monitor

The repository is a small AArch64 system: an EL3 monitor, a secure OS, and a kernel with tasks. This project
models the parts that change state in ways that are hard to follow, and proves what they keep. Each part has a
value-level model with its theorems, and imperative Dafny in the form of the C code, proved against that model.

**Page tables** (`Words`, `AddressSpace`, `Bits`, `TableTree`, `PageTable`, `Boot`, `BootMap`, `KernelSetup`,
`BootReady`). Two roots share a bump pool of 512-entry tables that are linked in place. `Mmu.mem` is that memory. The
tables always form a forest, so a map or unmap call changes exactly the pages of its region in one root, and the
hardware walk finds what a flat map from page number to descriptor says. The number of tables drawn is exact. The
secure OS has the same code with 64 tables of which only 64 entries are cleared; the class covers both. `Boot` and
`KernelSetup` follow the map calls made before the scheduler starts, `BootMap` says what they leave in both roots, and
`BootReady.StartKernel` runs boot from zeroed memory to the scheduler.

**Page allocator and TLB** (`HeapPages`, `PageAllocator`, `HeapRuns`). First fit over a byte map, mapping on
allocation, unmapping and flushing on free. The TLB is a second actor: at any moment it may cache any valid
translation of the kernel root or drop one. After every completed call it holds nothing that the tables do not say.

**Key wrap** (`Gf256`, `Aes`, `SeeCrypto`, `KeyWrap`). `Aes` is FIPS 197, sections 5.1 to 5.3. The four AES
instructions are defined from it, the loops of the secure OS are proved to compute the cipher and the straight
inverse cipher, unwrapping a wrapped key gives the key, and what else unwraps is said exactly.

**Scheduler** (`Tasks`, `SchedInvariant`, `SchedRuns`, `Draining`, `Stacks`, `StepEffects`, `TaskLife`, `TaskQueue`,
`StackMemory`, `Scheduler`). `Tasks` is a transition system: creating, the locked parts of `msleep` and `task_exit`, the
scheduling interrupt, the GC interrupt; `StepEffects` says what each does without naming the transition functions, and
that nothing else fits. `Scheduler.Kernel` is the C code over a pool, intrusive queues and the allocator above, one
event a method. A run is any sequence of enabled events, in any order and number; `TaskLife` follows a task through it.

**World switch** (`WorldSwitch`, `SwitchRuns`, `Monitor`). One core, its trap frame, two contexts and the EL1
registers, with arbitrary code of the running world between traps.

Hypotheses, each from the source:

- the TLB is empty when translation is turned on, and `tlbi vaale1is` with operand `va >> 12` drops the entry of the
  page, although bits 47:44 of the operand of a kernel address are ones, where later cores take a level hint;
- enough tables for a map call (`allocate_table` returns null otherwise and its callers do not look); regions of at
  most 0x7FFFF000 bytes (`int i`); at most `MAX_PAGES` pages per allocation;
- `_heap_begin` page aligned with its window below 4 GB of physical memory; freed runs are runs that were
  allocated; the allocator starts on an unmapped window with tables in reserve for the stacks (both are proved of
  the boot sequence in `BootReady`, for an image and stack of at most 2 MB) and a TLB that holds nothing stale;
- one scheduling core, as booted; locked sections and interrupts are atomic; the idle task neither sleeps nor exits;
  clock values do not wrap; only the scheduler uses the allocator;
- only the secure OS yields, only the kernel calls and resumes, and it resumes only what has been entered; a core that
  takes the sleep interrupt executes nothing further (`el3_cpu_off` ends in a loop around `wfi`).

Representation: pointers into a table pool or the task pool are row and slot numbers, -1 for null; a task's `next`
field is kept in an array beside its other fields; a stack is known by the index of its first heap page, a built
frame by its offset in the heap, and a frame that an interrupt pushed by an opaque value. A function parameter
stands for the S-box in the key expansion, used with the table.

Where comments and code differ the model follows the code: the pool has 32 tables, not 128
(`src/kernel/kernel_mmu.c:9-11`), and a sleeper is woken at its wake time, not after it
(`src/kernel/kernel_sched.c:251-265`).

## Model

| member | source | states |
|---|---|---|
| `Words.VaPaInverse` | include/mmu.h:109-110 | VA_TO_PA and PA_TO_VA undo each other on every 64-bit word |
| `Words.KernelHalf` | include/mmu.h:109-110 | physical memory below 4 GB and the top 4 GB of the address space correspond |
| `AddressSpace.Indices` | src/kernel/kernel_mmu.c:32-44 | the three table indices cut from any address are those of its page number, VA bits 31:12 |
| `AddressSpace.RegionAddress` | src/kernel/kernel_mmu.c:191-198 | pass k of a region loop reaches page floor(va/4096)+k modulo 2^20, whether or not the start is aligned |
| `AddressSpace.MapPagesAt` | src/kernel/kernel_mmu.c:191-198 | a region map sets exactly the pages at offset below ceil(size/4096), each to its own physical page, and no other |
| `AddressSpace.UnmapPagesAt` | src/kernel/kernel_mmu.c:200-219 | a region unmap clears exactly those pages and no other |
| `AddressSpace.UnmapUndoesMap` | src/kernel/kernel_mmu.c:191-219 | unmapping what was mapped over unmapped pages restores the whole address space |
| `AddressSpace.MappedRegionIs` | src/kernel/kernel_mmu.c:30-57 | a region map gives tables to exactly the 1 GB and 2 MB slots it touches |
| `AddressSpace.TablesForIs` | src/kernel/kernel_mmu.c:21-48 | the tables a call needs are the cardinality of the touched slots without a table |
| `AddressSpace.RemapNeedsNone` | src/kernel/kernel_mmu.c:21-48 | mapping a region again needs no table |
| `AddressSpace.RegionCostIs` | src/kernel/kernel_mmu.c:50-57 | drawing page by page adds up to exactly that number |
| `AddressSpace.TablesBound` | src/kernel/kernel_mmu.c:30-57 | n contiguous pages never draw more than (n+1022)/512 + (n+524286)/262144 tables |
| `AddressSpace.StoreCoherent` | include/mmu.h:166-173 | a descriptor write can make only its own page stale, and only if the page had a translation |
| `AddressSpace.TlbStepCoherent` | include/mmu.h:166-173 | whatever the hardware caches from valid entries or drops keeps the TLB coherent outside the allowed pages |
| `AddressSpace.CacheAny` | include/mmu.h:166-173 | and the hardware may at any step hold any selection of the valid translations |
| `Bits.PageDescBits` | src/kernel/kernel_mmu.c:47 | every bit of a descriptor, for every address and every attribute word: the address without its low 12 bits, the attributes, the two valid bits |
| `Bits.DescSum` | src/kernel/kernel_mmu.c:47 | with attributes outside the address field the three parts add up |
| `TableTree.LinkedForest` | src/kernel/kernel_mmu.c:34-42 | linking a fresh table keeps one parent per drawn table and none for undrawn ones |
| `TableTree.LinkedKeeps` | src/kernel/kernel_mmu.c:21-28 | linking a fresh table of zeros changes no translation of either root |
| `TableTree.LeafUnique` | src/kernel/kernel_mmu.c:36-47 | no two pages, and no two roots, share a level-3 entry |
| `TableTree.MappedView` | src/kernel/kernel_mmu.c:30-48 | mapping a page sets that translation of that root alone; the other root keeps everything |
| `TableTree.ClearedView` | src/kernel/kernel_mmu.c:200-219 | clearing a page clears that translation of that root alone |
| `TableTree.CostIs` | src/kernel/kernel_mmu.c:34-42 | a page needs a table for each of its slots that has none |
| `PageTable.Mmu.MemWalkIsWalk` | src/kernel/kernel_mmu.c:30-48 | the walk through the words in memory finds what the tree says, for both roots |
| `PageTable.Mmu.DerefTable` | src/kernel/kernel_mmu.c:168-189 | a stored descriptor leads back to its table, through VA_TO_PA and PA_TO_VA as well as without them |
| `PageTable.Mmu.constructor` | src/kernel/kernel_mmu.c:80-84 | zeroed memory is a valid forest without translations |
| `PageTable.Mmu.AllocateTable` | src/kernel/kernel_mmu.c:21-28 | next pool row, cleared (512 or 64 entries); the null pointer and no effect when the pool is used up |
| `PageTable.Mmu.LinkTable` | src/see/see_mmu.c:15-40 | the new table is all zero although only 64 of 512 entries are cleared: rows beyond the pool pointer are untouched |
| `PageTable.Mmu.Descend` | src/kernel/kernel_mmu.c:34-38 | an entry is followed, or a table is drawn and linked there first |
| `PageTable.Mmu.MapPage` | src/kernel/kernel_mmu.c:168-189 | map_page_4k, map_page_virtual and see_map_page: the tree after mapping exactly this page, the tables counted, and every bit of the word that the hardware walk then finds |
| `PageTable.Mmu.UnmapPage` | src/kernel/kernel_mmu.c:200-219 | the loop body: only this page is cleared, no table is drawn, nothing when a level is missing |
| `PageTable.Mmu.MapRegion` | src/kernel/kernel_mmu.c:191-198 | map_region, map_region_virtual and see_map_region: exactly the pages of the region, exactly the tables needed, other root untouched, TLB coherent; the walk finds each page's own descriptor, bit by bit, and elsewhere what it found before |
| `PageTable.Mmu.UnmapRegion` | src/kernel/kernel_mmu.c:200-219 | exactly the pages of the region are cleared, no table drawn, stale entries only among the pages allowed |
| `PageTable.Mmu.Speculate` | include/mmu.h:166-173 | one arbitrary step of the hardware cache beside the code |
| `PageTable.Mmu.FlushPage` | include/mmu.h:166-173 | a flush ends the staleness of its page |
| `Boot.RunCounts` | src/kernel/kernel_mmu.c:80-116 | boot draws one table for each slot of its calls, in either root, and none twice |
| `Boot.BootTables` | src/kernel/kernel_mmu.c:80-116 | at least 21 of the 32 tables are left when the scheduler starts |
| `Boot.PrefixDrawn` | src/kernel/kernel_mmu.c:80-116 | so they are after any of the calls of boot |
| `KernelSetup.SetupMmu` | src/kernel/kernel_mmu.c:80-116 | the tables in memory after the map calls of boot are those of the model, and nothing cached is stale |
| `KernelSetup.MapOff` | src/kernel/kernel_mmu.c:90-116 | one call with translation off is one step of the model, and nothing is cached |
| `KernelSetup.MapOn` | src/kernel/kernel_mmu.c:168-198 | one call with translation on, over unmapped pages, is one step of the model and leaves nothing stale |
| `KernelSetup.VirtioUnmapped` | src/kernel/kernel_mmu.c:90-116 | the page of the virtio device is unmapped before its call |
| `BootReady.BootStart` | src/kernel/kernel_mmu.c:80-84 | zeroed memory is the state boot starts from |
| `BootReady.StartKernel` | src/kernel/kernel_sched.c:70-79 | from zeroed memory through the map calls and the allocator to a scheduler whose invariants hold, with at least 21 tables left |
| `BootReady.WindowUnmapped` | linker.ld:60-75 | after boot the allocator starts on an unmapped window |
| `BootReady.ReserveLeft` | src/kernel/kernel_mmu.c:21-28 | after boot the stacks of any run find their tables |
| `Boot.HeapUnmapped` | linker.ld:60-75 | no page of the heap window is mapped when the allocator starts |
| `BootMap.KernelAfterBoot` | src/kernel/kernel_mmu.c:80-116 | every translation of the kernel root after boot: UART, interrupt controller, virtio, image, and nothing else |
| `BootMap.UserAfterBoot` | src/kernel/kernel_mmu.c:90-116 | every translation of the user root: image and shared memory, and nothing else |
| `BootMap.ImageMapped` | src/kernel/kernel_mmu.c:90-99 | every page of kernel image and stack is mapped to itself; the page shared by image end and stack is not executable |
| `HeapPages.FirstFit` | src/kernel/kernel_mm.c:24-56 | the lowest free run; -1 only if no run of that length is free |
| `HeapPages.PtrPage` | src/kernel/kernel_mm.c:41-45 | address, page number and index of a heap page determine each other |
| `HeapPages.AllocateAgrees` | src/kernel/kernel_mm.c:33-49 | marking and mapping a run keeps bitmap and tables in agreement |
| `HeapPages.FreeAgrees` | src/kernel/kernel_mm.c:67-73 | unmarking and unmapping a run keeps them in agreement |
| `HeapPages.FreeRunUnmapped` | src/kernel/kernel_mm.c:26-47 | the pages of a free run have no translation, so mapping them needs no flush |
| `PageAllocator.Allocator.constructor` | src/kernel/kernel_mm.c:6-7 | an empty bitmap over an unmapped window agrees with the tables |
| `PageAllocator.Allocator.RunIsFree` | src/kernel/kernel_mm.c:26-31 | the inner loop decides whether the run is free |
| `PageAllocator.Allocator.Search` | src/kernel/kernel_mm.c:24-37 | the outer loop finds the first fit |
| `PageAllocator.Allocator.AllocatePages` | src/kernel/kernel_mm.c:19-56 | null and no effect for 0 pages or no free run; else the lowest free run, marked, mapped to itself; invariants and TLB coherence kept |
| `PageAllocator.Allocator.FreePages` | src/kernel/kernel_mm.c:58-76 | the run is unmarked and unmapped, no table drawn, and after its flushes no stale translation is left |
| `HeapRuns.HeapDescIs` | src/kernel/kernel_mm.c:45-47 | the descriptor of a heap page is its own physical address with the heap attributes and the valid bits |
| `HeapRuns.AllocateSteps` | src/kernel/kernel_mm.c:33-49 | the state that an allocation leaves is a step of the run model |
| `HeapRuns.RunKeeps` | src/kernel/kernel_mm.c:19-76 | after any sequence of matched calls: marked iff mapped to itself, live runs disjoint, nothing outside the window changed |
| `HeapRuns.AllReturned` | src/kernel/kernel_mm.c:58-76 | once every run is returned the address space is as at the start |
| `Gf256.InvSboxInverts` | src/see/see_crypto.c:8-30 | the inverse S-box undoes the S-box on every byte |
| `Gf256.SboxIsStandard` | src/see/see_crypto.c:8-30 | the table is the affine transform of the inverse in GF(2^8), section 5.1.1 of FIPS 197 |
| `Gf256.InvMixRowInverts` | src/see/see_crypto.c:84-106 | the InvMixColumns matrix times the MixColumns matrix is the identity |
| `Gf256.MixRowInverts` | src/see/see_crypto.c:84-106 | so is the product the other way round |
| `Gf256.InvMixRowAdds` | src/see/see_crypto.c:71-73 | InvMixColumns is linear over exclusive or |
| `Aes.RowsShifted` | src/see/see_crypto.c:84-91 | row r of a state moves r columns to the left, for every byte |
| `Aes.RowsShiftedBack` | src/see/see_crypto.c:103-110 | and back |
| `Aes.RoundKnown` | src/see/see_crypto.c:84-86 | the first round of the example in appendix B of FIPS 197 |
| `Aes.InvMixColumnsInverts` | src/see/see_crypto.c:84-106 | InvMixColumns undoes MixColumns on every state |
| `Aes.InvMixColumnsAdds` | src/see/see_crypto.c:71-73 | InvMixColumns distributes over AddRoundKey, section 5.3.5 |
| `Aes.SubShiftCommute` | src/see/see_crypto.c:84-106 | SubBytes and ShiftRows commute, so do their inverses |
| `Aes.InvStateIs` | src/see/see_crypto.c:99-112 | the inverse cipher runs the states of the cipher backwards, round by round |
| `Aes.InvCipherInverts` | src/see/see_crypto.c:78-112 | the inverse cipher undoes the cipher, for every key schedule and block |
| `Aes.CipherStateIs` | src/see/see_crypto.c:83-90 | the cipher runs the states of the inverse cipher backwards |
| `Aes.CipherInverts` | src/see/see_crypto.c:78-112 | the cipher undoes the inverse cipher: under every key schedule it is a bijection on blocks |
| `SeeCrypto.RotWordLeIs` | src/see/see_crypto.c:36 | the shift pair on a little-endian word is RotWord on its bytes |
| `SeeCrypto.SubWordLeIs` | src/see/see_crypto.c:37-40 | the four table look-ups put back are SubWord on the bytes |
| `SeeCrypto.RconIs` | src/see/see_crypto.c:32-33 | the table holds the powers of x that Rcon prescribes |
| `SeeCrypto.LaterWord` | src/see/see_crypto.c:46-53 | every later word of the schedule byte by byte: rotated, substituted and with its round constant in every fourth, the plain sum in the others |
| `SeeCrypto.FirstWord` | src/see/see_crypto.c:43-45 | the first four words are the key |
| `SeeCrypto.WordKnown` | src/see/see_crypto.c:46-53 | word 4 of the key of appendix A.1 of FIPS 197 is a0fafe17 |
| `SeeCrypto.NextRoundKey` | src/see/see_crypto.c:48-53 | a pass of the loop computes the next schedule word, byte by byte, all table indices in range |
| `SeeCrypto.ExpandKey` | src/see/see_crypto.c:43-54 | the filled array, word by word and byte by byte, against the two words it is made of; byte j of round_keys[i] is byte j of w[i] of section 5.2 |
| `SeeCrypto.LowBytes` | src/see/see_crypto.c:79-80 | the bytes of the first half, in memory order |
| `SeeCrypto.HighBytes` | src/see/see_crypto.c:79-80 | the bytes of the second half |
| `SeeCrypto.LanesOfLoad` | src/see/see_crypto.c:79-80 | two halves loaded into a vector come back as its lanes |
| `SeeCrypto.LoadOfLanes` | src/see/see_crypto.c:94-100 | a vector stored as two halves and loaded again is the same |
| `KeyWrap.WrapRound` | src/see/see_crypto.c:83-86 | a pass of the wrapping loop is a cipher round with its key added one pass late |
| `KeyWrap.UnwrapRound` | src/see/see_crypto.c:102-105 | a pass of the unwrapping loop is a round of the straight inverse cipher, with a transformed key |
| `KeyWrap.UnwrapUndoesWrap` | src/see/see_crypto.c:78-112 | for every master key and every 64-bit key, unwrapping the wrapped key gives it back |
| `KeyWrap.WrappedIff` | src/see/see_crypto.c:99-112 | unwrapping takes any pair of words; a pair is the wrapping of a key, and then of the key returned, if and only if lane 1 deciphers to the fill, which the code never looks at |
| `KeyWrap.CommandRoundTrip` | src/see/see_com.c:13-37 | through the command interface this holds if and only if the key and both halves of the blob are non-zero |
| `KeyWrap.KeyStore.InitCrypto` | src/see/see_crypto.c:60-76 | column j of round key r is word 4r+j of the schedule; the other table holds them backwards, the inner nine through InvMixColumns |
| `KeyWrap.KeyStore.WrapKey` | src/see/see_crypto.c:78-97 | the loops compute the Cipher of section 5.1 on the block of key and fill 0xFAEFA0A0A053FE00, and both lanes of it are returned |
| `KeyWrap.KeyStore.UnwrapKey` | src/see/see_crypto.c:99-112 | the loops compute lane 0 of the straight inverse cipher of section 5.3 |
| `SchedInvariant.PickAt` | src/kernel/kernel_sched.c:228-274 | draining is stable: each picked task comes right after the picked tasks that were before it |
| `SchedInvariant.PickSplits` | src/kernel/kernel_sched.c:228-274 | draining loses no task: the two lists make up the queue |
| `SchedInvariant.CreateInv` | src/kernel/kernel_sched.c:89-123 | creating a task keeps the invariant |
| `SchedInvariant.SleepInv` | src/kernel/kernel_sched.c:280-292 | the locked part of msleep keeps it |
| `SchedInvariant.ExitInv` | src/kernel/kernel_sched.c:125-140 | the locked part of task_exit keeps it |
| `SchedInvariant.IrqInv` | src/kernel/kernel_sched.c:142-194 | wake-up and switch keep it, through the middle state where a woken current task is queued |
| `SchedInvariant.ReapFrees` | src/kernel/kernel_sched.c:228-249 | a GC interrupt empties the zombie queue, clears exactly its tasks, and never frees the current one |
| `SchedInvariant.RunInv` | src/kernel/kernel_sched.c:18-292 | over every run each slot is in exactly one place, its state and core match it, and queued zombies have a GC interrupt pending |
| `StepEffects.CreateEffect` | src/kernel/kernel_sched.c:89-123 | with an empty slot the lowest gets a ready task with the next id, its entry frame and a stack of three newly marked pages, last in the ready queue; nothing else changes; without one nothing does |
| `StepEffects.SwitchEffect` | src/kernel/kernel_sched.c:142-194 | who gets the core, what each queue holds, and frame, state and core of every task, after wake-up and switch |
| `StepEffects.ReapEffect` | src/kernel/kernel_sched.c:228-249 | each queued zombie is zeroed, exactly the pages of their stacks are unmarked, nothing else changes |
| `StepEffects.InitIs` | src/kernel/kernel_sched.c:70-79 | at the start only the idle task exists |
| `StepEffects.NextIsEffect` | src/kernel/kernel_sched.c:89-292 | each event has exactly one effect, stated apart from the transition functions, and they compute it |
| `TaskLife.RunEffects` | src/kernel/kernel_sched.c:89-292 | from boot every step of every run has that effect |
| `TaskLife.CreatedStarts` | src/kernel/kernel_sched.c:89-194 | a created task is dispatched at its entry by exactly the (n+1)-th scheduling interrupt, n tasks being ready before it |
| `TaskLife.SleeperReturns` | src/kernel/kernel_sched.c:255-292 | after msleep(ms) at time t the first interrupt at or after t+ms makes the caller ready or current |
| `TaskLife.ExitEnds` | src/kernel/kernel_sched.c:125-194 | after task_exit no scheduling interrupt dispatches the task before its slot was cleared |
| `TaskLife.ExitQueued` | src/kernel/kernel_sched.c:125-187 | the first scheduling interrupt after task_exit queues the task as zombie, off its core, with the GC interrupt pending |
| `TaskLife.ExitCleared` | src/kernel/kernel_sched.c:125-249 | the first GC interrupt after that zeroes the slot and frees the three stack pages |
| `SchedRuns.BoundedWaiting` | src/kernel/kernel_sched.c:142-194 | the task at place k of the ready queue is dispatched by exactly the (k+1)-th scheduling interrupt, whatever comes between |
| `SchedRuns.IdleOnlyWhenNoneReady` | src/kernel/kernel_sched.c:172-176 | idle is dispatched exactly when nothing is ready after wake-ups and requeueing |
| `SchedRuns.FrameRecorded` | src/kernel/kernel_sched.c:152 | an interrupt records the frame of the task it interrupts |
| `SchedRuns.ResumesWhereStopped` | src/kernel/kernel_exception.c:59-86 | a task continues with exactly the frame recorded when it last left the core |
| `SchedRuns.StartsAtEntry` | src/kernel/kernel_sched.c:109-119 | a task that never ran starts in the frame built at the top of its own stack, at its entry |
| `Stacks.FrameAligned` | src/kernel/kernel_sched.c:109-112 | that frame lies in the stack, ends where the stack ends, and is 16-byte aligned |
| `Stacks.FrameOutside` | src/kernel/kernel_sched.c:109-112 | it overlaps no stack of another live task |
| `SchedRuns.NoneDueAsleep` | src/kernel/kernel_sched.c:255-274 | no due sleeper is left after a scheduling interrupt |
| `SchedRuns.WokenOnTime` | src/kernel/kernel_sched.c:255-274 | an interrupt at or after the wake time makes a sleeper ready or current |
| `SchedRuns.NeverWokenEarly` | src/kernel/kernel_sched.c:255-274 | with a monotone clock a sleeper is dispatched only at a time not before its wake time |
| `SchedRuns.SleepsLongEnough` | src/kernel/kernel_sched.c:280-292 | msleep(ms) at time t: the caller runs again no earlier than t+ms |
| `SchedRuns.ExitedStep` | src/kernel/kernel_sched.c:125-140 | an exited task stays a zombie until a GC interrupt clears its slot |
| `SchedRuns.ExitedNeverRuns` | src/kernel/kernel_sched.c:125-194 | over every run, an exited task is never dispatched before its slot was cleared |
| `SchedRuns.ExitedIrq` | src/kernel/kernel_sched.c:157-187 | the interrupt after an exit queues the zombie, off its core, and leaves its reaping pending |
| `Draining.WakeAllIs` | src/kernel/kernel_sched.c:255-274 | rethreading one sleeper after the other is the stable partition by wake time |
| `Draining.ReapAllIs` | src/kernel/kernel_sched.c:228-249 | draining zombies one after the other clears those off every core and keeps the rest in order |
| `TaskQueue.AppendedLinked` | src/kernel/kernel_sched.c:18-26 | writing the two links threads the longer list, still acyclic |
| `TaskQueue.RemovedLinked` | src/kernel/kernel_sched.c:28-37 | cutting the head leaves the rest threaded |
| `TaskQueue.AppendedApart` | src/kernel/kernel_sched.c:18-26 | appending does not disturb other lists through the same next fields |
| `TaskQueue.RemovedApart` | src/kernel/kernel_sched.c:28-37 | nor does removing |
| `TaskQueue.Queue.Enqueue` | src/kernel/kernel_sched.c:18-26 | head, tail and links after appending, exactly |
| `TaskQueue.Queue.Dequeue` | src/kernel/kernel_sched.c:28-37 | the first task or null; head, tail and links after removing it, exactly |
| `Scheduler.Kernel.constructor` | src/kernel/kernel_sched.c:70-79 | init_sched establishes the invariant with idle current, on fresh pool and queues |
| `Scheduler.Kernel.StackOfLive` | src/kernel/kernel_sched.c:106-109 | in every reachable state the three stack pages of a live task are mapped to themselves |
| `Scheduler.Kernel.Sleep` | src/kernel/kernel_sched.c:280-292 | the caller sleeps until now+ms at the end of the sleep queue, nothing else changes; invariants kept |
| `Scheduler.Kernel.Exit` | src/kernel/kernel_sched.c:125-132 | the caller is a zombie and still current, nothing else changes; invariants kept |
| `Scheduler.Kernel.CheckTasks` | src/kernel/kernel_sched.c:255-274 | the draining loop terminates and computes the wake-up step |
| `Scheduler.Kernel.RequeueCurrent` | src/kernel/kernel_sched.c:142-170 | the first half of schedule_task |
| `Scheduler.Kernel.Dispatch` | src/kernel/kernel_sched.c:172-193 | the second half of schedule_task |
| `Scheduler.Kernel.FindSlot` | src/kernel/kernel_sched.c:92-98 | the lowest empty slot, or none |
| `Scheduler.Kernel.CreateTask` | src/kernel/kernel_sched.c:89-123 | create_task on the real allocator: exactly one task more, in the lowest empty slot, or nothing without one; never without a stack or a table; invariants kept |
| `Scheduler.Kernel.ReaperService` | src/kernel/kernel_sched.c:228-249 | the draining loop terminates, gives back each stack and clears each task: the model step |
| `Scheduler.Kernel.KernelIrq` | src/kernel/kernel_exception.c:59-86 | the branches of kernel_irq: the effect of each, and which frame is returned; invariants kept |
| `Stacks.StackFound` | src/kernel/kernel_sched.c:93-106 | with a slot free, first fit finds a whole unused block among the first 63 |
| `Stacks.OwnedReaped` | src/kernel/kernel_sched.c:233-241 | giving stacks back one after the other keeps live stacks disjoint and exactly their pages marked |
| `Stacks.RunOwned` | src/kernel/kernel_sched.c:89-249 | over every run from boot live tasks own disjoint 3-page stacks below heap page 189, only their pages are marked, and no task with a slot lacks a stack |
| `Stacks.StackMapped` | src/kernel/kernel_mm.c:41-47 | so its three stack pages are mapped to themselves |
| `Stacks.ThreePerTask` | src/kernel/kernel_sched.c:106-108 | exactly three pages are marked per live task |
| `Stacks.ReserveBound` | src/kernel/kernel_mmu.c:21-28 | the stacks of any run need at most four tables |
| `Stacks.ReserveDrawn` | src/kernel/kernel_mm.c:41-47 | each stack draws its tables out of that reserve, which is never overdrawn |
| `StackMemory.Memory.AllocateStack` | src/kernel/kernel_sched.c:106 | the allocation succeeds with the first fit and keeps the reserve |
| `StackMemory.Memory.FreeStack` | src/kernel/kernel_sched.c:239 | the stack is unmarked and unmapped |
| `SwitchRuns.CallRecords` | src/el3/el3_exception.c:112-124 | a call records the complete caller |
| `SwitchRuns.ExitSwitches` | src/el3/el3_smc_handler.c:29-58 | a yield or preemption restores the recorded caller, x0 to x5 passing through (x1 replaced on preemption) |
| `SwitchRuns.EntrySwitches` | src/el3/el3_smc_handler.c:59-76 | a call or resume restores the recorded secure state with the caller's x0 to x5 |
| `SwitchRuns.FirstEntry` | src/el3/el3_exception.c:140-146 | the first call enters the secure OS at its entry point with SCTLR.M clear, TTBR0, TTBR1 and TCR zero, and every other register as at the call |
| `SwitchRuns.WakeEnters` | src/el3/el3_exception.c:42-53 | a wake-up with an entry point sets PC, SPSR and SCR_EL3.NS and nothing else |
| `SwitchRuns.FirmwareAnswers` | src/el3/el3_smc_handler.c:8-85 | x1 after a version call, a power call and an unknown call; nothing else changes |
| `SwitchRuns.OthersIgnored` | src/el3/el3_exception.c:100-176 | any other trap leaves the core as it was |
| `SwitchRuns.CallReturns` | src/el3/el3_exception.c:54-147 | over every run, the return to the kernel finds x6-x30, vectors, FPSR, system registers and PC exactly as at its last call |
| `SwitchRuns.EveryReturn` | src/el3/el3_exception.c:112-147 | from boot every return to the kernel is the return of a call |
| `SwitchRuns.EveryEntry` | src/el3/el3_exception.c:112-147 | from boot every entry to the secure OS is its first, at its entry point with translation off, or continues its latest exit |
| `SwitchRuns.SecureContinues` | src/el3/el3_exception.c:128-139 | every entry to the secure OS finds that set as at its last yield or preemption |
| `SwitchRuns.ScrMatches` | src/el3/el3_exception.c:70-87 | SCR_EL3.NS always says which world runs, through wake-ups too |
| `SwitchRuns.FpcrPassesThrough` | src/el3/el3_vector.S:53-56 | every trap hands the FPCR on unchanged: the word stored at 808 is not the field at 804 |
| `SwitchRuns.FpcrIsLast` | src/el3/el3_vector.S:53-70 | over every run the FPCR is what guest code of either world wrote last |
| `SwitchRuns.FpcrPreserved` | src/el3/el3_vector.S:53-70 | a call preserves the caller's FPCR if and only if the last guest step since the call, if any, left that value |
| `SwitchRuns.FpcrTaken` | src/el3/el3_vector.S:53-70 | whatever FPCR the secure OS yields with, some run hands it to the caller |
| `SwitchRuns.FpcrLost` | src/el3/el3_vector.S:53-70 | a run in which the caller's FPCR 0 comes back as 1 |
| `Monitor.SavedContext.Save` | include/cpu_state.h:38-46 | save_context: exactly the six registers and the flag |
| `Monitor.SavedContext.Restore` | include/cpu_state.h:48-60 | restore_context: nothing when the context is not initialised |
| `Monitor.SavedContext.CopyFrom` | src/el3/el3_smc_handler.c:32-41 | the copy loops into a context: exactly registers first to 30 and all vectors |
| `Monitor.SavedContext.CopyTo` | src/el3/el3_smc_handler.c:44-52 | the copy loops into a frame: x0 to x5 stay |
| `Monitor.CoreState.Yield` | src/el3/el3_smc_handler.c:29-58 | contexts, frame and registers after SMC_YIELD |
| `Monitor.CoreState.Resume` | src/el3/el3_smc_handler.c:59-76 | the same after SMC_RESUME |
| `Monitor.CoreState.JumpToKernel` | src/el3/el3_exception.c:54-88 | the same after preemption |
| `Monitor.CoreState.Call` | src/el3/el3_exception.c:112-148 | the same after a call, first or later; after the first the system registers have translation off |
| `Monitor.CoreState.DisableMmu` | include/mmu.h:143-150 | SCTLR.M is cleared and only that bit of SCTLR; TTBR0, TTBR1 and TCR are zero |
| `Monitor.CoreState.CpuOn` | src/el3/el3_exception.c:42-53 | nothing without an entry point, else the core goes on there in the non-secure world |
| `Monitor.CoreState.HandleFiq` | src/el3/el3_exception.c:157-176 | the dispatch on the interrupt, but for the sleep interrupt |
| `Monitor.CoreState.SyncLower` | src/el3/el3_exception.c:100-155 | the dispatch on world and function number |

## Left out

- Multi-core interleavings inside handlers and the ordering of the spinlock: the code boots one scheduling core.
- What map calls do once the pool is used up: they write through a null table pointer.
- Barriers, cache attributes, TCR/MAIR values, and turning translation on: no hardware model stands behind them.
- PageTable.Mmu.FlushPage: that the instruction drops the entry of its page is assumed, see the hypotheses above.
- The TLB of the user root.
- The remapping of the user root by the first task, the user application, and system calls.
- The contents of trap frames on task stacks other than the entry that `create_task` builds.
- `reaper_task`, which no code creates and which repeats `reaper_service`.
- PSCI power calls: their result is a parameter; what other cores set for a wake-up is part of the interrupt.
- Preservation of SPSR across a world switch, which is forced to EL1h.
- The secure OS's x0 to x5 across a preemption, which the code drops.
- GIC, timer, UART, virtio and ITS drivers, `kernel_printf`, and the monitor's own page tables.
