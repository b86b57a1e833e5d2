# Verified model of a small x86-64 kernel

This project models the parts of the kernel, its userland and its disk tools whose correctness is
not evident from reading one function, and proves what they promise. `dafny verify dfyconfig.toml`
checks all of it.

Interrupts are off inside the kernel, except in system call 0, which waits with them on and changes
no table. So a system call is one atomic step up to the point where it blocks or yields. The kernel's
protocols are therefore state machines over such steps, and the theorems speak about every reachable
state and every sequence of steps. Code that changes memory in place is modelled in place, by classes
and arrays, and each method is proved against a function on values; the theorems are about those
functions.

| part of the system | on values | theorems | in place |
|---|---|---|---|
| buddy allocator | Powers, BuddyModel | BuddyTheorems, BuddyLists | BuddyHeap |
| first-fit allocator | FirstFitModel | FirstFitTheorems | FirstFitHeap |
| memory of processes | ProcessMemory | ProcessMemory | Processes |
| scheduler and sleep table | KernelModel | SchedulerTheorems, Fairness, Rotation, Sleeping, Kinship, Effects | Scheduler |
| semaphores | SemaphoreModel, WaitQueue | SemaphoreModel, Agreement, KernelEffects, KernelService, Misfortunes | WaitQueue, Semaphores, SemaphoreTable |
| pipes | Pipes | Pipes | Pipes |
| pipes, semaphores and processes together | PipeKernel | PipeViews, PipeTheorems, Deliveries, PipeMisfortunes | |
| dining philosophers | Philosophers | Philosophers, Joining | Dining |
| BMFS file creation | BmfsModel | BmfsTheorems | BmfsDisk |
| kernel image, packer and loader | Images | Images | ImageTools |
| numbers as text | Numerals | Numerals | NumeralText |

Main results:

- Buddy allocator: tiling, complete coalescing and byte conservation in every history; failure only
  when no suitable region exists; the free blocks are a function of the live ones; an allocation
  followed by its free restores every list in order. The program with linked lists refines all this.
- First-fit allocator: the same for its block list, which is canonical, and lowest placement. Hence
  creating and destroying a process restores the heap exactly. What a request gets is a function of
  the allocated blocks (`MallocDetermined`).
- Scheduler: one invariant over all runs, a starvation bound, the exact order and length of turns in
  every round, and a sleep cache that agrees with a full scan, so that a process put to sleep by
  time.c sleeps as long as asked. (No call of `sleep` in time.c is part of the repository.)
  `StepOnSlot` and `StepOnTurn` say of every event what it leaves in every slot and whose turn it is
  then, by the tables before it alone: who wakes whom, who adopts whom, who can be killed.
- Semaphores, alone and with the scheduler: service in arrival order, and queues that agree with the
  process table in every run from boot. Pipes on top of them deliver every byte once and in order.
- Semaphores, scheduler and pipes in one machine (`SystemCorrect`): all of this holds in every run,
  where killProcess itself writes to a pipe and may wait half way; `KillKeepsIff` and `FinishKeepsIff`
  say exactly which kills break it. `BytesDelivered` ties what the pipes hold to what each process
  wrote.
- Philosophers: neighbours never eat together and somebody can always act, with joins at any time.
- BMFS creation, image loading and number conversion: exact conditions and round trips.

Where the code does not meet a property it might be expected to have, the exact condition is proved:

- `BlockHoldsRequestIff`: the 32-bit addition of the header may wrap and give a block that is too small.
- `AlignRoundsUpIff`: so may the rounding of a request in the first-fit allocator.
- `FailureRestoresIff`: a creation that fails on an argument string leaks what it had copied
  (`LeakHappens`).
- `Log2CeilEndsIff`: log2_ceil loops forever above 2^31.
- `SelfPriorityStarves`: setPriority renews the quantum, so it can postpone others forever.
- `DequeuedRightIff`: removing the head of a full ring takes away the last element instead; it takes
  init in a queue to fill one (`QueuesNeverFill`).
- `WaitAgreesIff`, `KillKeepsIff`: init is queued, but not blocked, by a wait it cannot pass. That
  happens when Ctrl+C comes while init is current and the process killed writes to a full pipe: the
  end-of-file byte then goes over the oldest unread byte (`InitOverwrites`, `InitKillHappens`).
- `FinishKeepsIff`: a killer that had to wait for room for the end-of-file byte removes its victim
  although that may be queued again by then (`LateRemovalHappens`).
- `CloseStrandsWaiters`: closing a semaphore leaves its waiters BLOCKED for good (`StrandedHappens`).
- `LateReapAgreesIff`, `DirectUnblockAgreesIff`: a waitPid that resumes late, and waking a waiter by
  number; `LateReapHappens` and `DirectUnblockHappens` are runs from boot.
- `CloseUndoesOpenIff`: a full semaphore table refuses existing names too (`FullTableHappens`).
- `StoppedIff`: a pipe stops for good exactly when 1024 granted processes were killed before they
  resumed (`PipeStops`, where the pipe is not the output of those killed).
- `JoinKeepsServedIff`: a newcomer may leave a hungry philosopher waiting for nobody (`JoinStrands`).
- `CreateRightIff`, `CreateGoodIff`: after deletions a file may be placed on top of another, although
  the BMFS document presents deleted records as ignored; `DeletionThenOverlap` is a history. A full
  directory with a deleted record counts as empty, and may be cut off. main lets any name through; an
  empty one ends the directory (`NamelessFileHidesOthers`).
- `FirstCreationIff`: on a disk of less than two blocks the arithmetic wraps around.
- `PayloadReadsBackIff`, `FromUndoesToIff`, `PipeNamesClashIff`: where the round trips and names end.

## Model

| member | source | states |
|---|---|---|
| `Powers.XorFlipsBit` | 3_Kernel/2_libraries/buddyMemoryManager.c:44-47 | xor with `1 << order` adds or subtracts exactly that block size, according to the bit, so the buddy of an offset is a neighbouring block |
| `Powers.AlignedNested` | 3_Kernel/2_libraries/buddyMemoryManager.c:44-52 | two naturally aligned blocks are nested or disjoint; they never overlap partly |
| `Powers.AlignedIffMultiple` | 3_Kernel/2_libraries/buddyMemoryManager.c:44-52 | alignment, defined bit by bit, means being a multiple of the block size |
| `BuddyModel.MateInvolution` | 3_Kernel/2_libraries/buddyMemoryManager.c:44-52 | the buddy is aligned, is another block, is the buddy of its buddy, and the two together are the aligned block one order up |
| `BuddyModel.HalveKeepsInv` | 3_Kernel/2_libraries/buddyMemoryManager.c:97-107 | splitting a block keeps alignment, disjointness, full cover of the heap and the absence of free buddy pairs |
| `BuddyModel.FuseKeepsInv` | 3_Kernel/2_libraries/buddyMemoryManager.c:210-221 | merging with a free buddy keeps them too |
| `BuddyModel.SettleKeepsInv` | 3_Kernel/2_libraries/buddyMemoryManager.c:210-225 | the whole merging loop with the final insertion keeps the invariant and the byte balance, and removes exactly the freed block from the live ones |
| `BuddyModel.SplitDownKeepsInv` | 3_Kernel/2_libraries/buddyMemoryManager.c:169-174 | the whole splitting loop keeps the invariant |
| `BuddyTheorems.InitialInv` | 3_Kernel/2_libraries/buddyMemoryManager.c:110-136 | the heap after initialisation tiles, is coalesced and balanced |
| `BuddyTheorems.VacantInsideFree` | 3_Kernel/2_libraries/buddyMemoryManager.c:142-162 | every aligned region free of live blocks lies inside one single free block: coalescing is complete |
| `BuddyTheorems.MallocAllocates` | 3_Kernel/2_libraries/buddyMemoryManager.c:139-186 | success gives an aligned block of the requested order out of space no live block touched, and no other live block changes; NULL changes nothing |
| `BuddyTheorems.MallocAligned` | 3_Kernel/2_libraries/buddyMemoryManager.c:154-185 | every block handed out starts at a multiple of its own size |
| `BuddyTheorems.MallocFailsIff` | 3_Kernel/2_libraries/buddyMemoryManager.c:139-162 | NULL if and only if the request is zero or no aligned region of the needed order is disjoint from all live blocks |
| `BuddyTheorems.MallocBestFit` | 3_Kernel/2_libraries/buddyMemoryManager.c:154-174 | the block is the lower end of a smallest free block that is large enough, the one freed or split off last among them |
| `BuddyTheorems.BlockHoldsRequestIff` | 3_Kernel/2_libraries/buddyMemoryManager.c:142-148 | the block is large enough for header and request, and the smallest such, if and only if the addition of the header does not wrap around 32 bits |
| `BuddyTheorems.FreeGivesBack` | 3_Kernel/2_libraries/buddyMemoryManager.c:189-225 | my_free takes exactly the block of a live pointer out of the live set and ignores every other pointer |
| `BuddyTheorems.FuseUndoesHalve` | 3_Kernel/2_libraries/buddyMemoryManager.c:97-107 | a split followed by the merge with the buddy just made is the identity, list order included |
| `BuddyTheorems.SettleUndoesSplitDown` | 3_Kernel/2_libraries/buddyMemoryManager.c:169-174 | freeing after a splitting loop is the same as freeing before it: the merges retrace the splits |
| `BuddyTheorems.FreeUndoesMalloc` | 3_Kernel/2_libraries/buddyMemoryManager.c:139-225 | freeing what my_malloc just returned restores every free list, order included |
| `BuddyTheorems.FreeIffMaximalVacant` | 3_Kernel/2_libraries/buddyMemoryManager.c:210-224 | a block is on a free list if and only if it is a maximal aligned region disjoint from the live blocks |
| `BuddyTheorems.FreeSetsCanonical` | 3_Kernel/2_libraries/buddyMemoryManager.c:210-224 | the free blocks are a function of the live blocks alone |
| `BuddyTheorems.RunKeepsGood` | 3_Kernel/2_libraries/buddyMemoryManager.c:139-225 | the invariant after any sequence of requests, with any pointers freed |
| `BuddyTheorems.RunsWithSameLiveAgree` | 3_Kernel/2_libraries/buddyMemoryManager.c:139-225 | two histories of any kind that leave the same live blocks leave the same free blocks |
| `BuddyTheorems.FreesCommute` | 3_Kernel/2_libraries/buddyMemoryManager.c:189-225 | two frees can be exchanged: same live and same free blocks |
| `BuddyTheorems.AllFreedIsInitial` | 3_Kernel/2_libraries/buddyMemoryManager.c:110-136 | once everything is freed the heap is exactly the initial one: a single block of the top order |
| `BuddyTheorems.RunConservesBytes` | 3_Kernel/2_libraries/buddyMemoryManager.c:176-207 | after any history used memory plus the sum of the free lists is the size of the heap |
| `BuddyLists.PushRepresents` | 3_Kernel/2_libraries/buddyMemoryManager.c:55-64 | pushing on one intrusive doubly linked list leaves all lists well formed and disjoint and changes only that one |
| `BuddyLists.UnlinkRepresents` | 3_Kernel/2_libraries/buddyMemoryManager.c:67-79 | the same for unlinking any node, first, middle or last |
| `BuddyHeap.Log2Ceil` | 3_Kernel/2_libraries/buddyMemoryManager.c:34-42 | the loop finds the least order whose block holds n |
| `BuddyHeap.Log2CeilEndsIff` | 3_Kernel/2_libraries/buddyMemoryManager.c:34-42 | in 32 bits the loop ends if and only if n is at most 2^31; above, the doubled size wraps around to 0 and stays there |
| `BuddyHeap.OrderRange` | 3_Kernel/2_libraries/buddyMemoryManager.c:118-127 | the top order is the largest whose block fits the heap, and is below MAX_POSSIBLE_ORDER |
| `BuddyHeap.TopOrder` | 3_Kernel/2_libraries/buddyMemoryManager.c:118-127 | the code finds that order, and its clamp never applies |
| `BuddyHeap.Heap.AddToFreeList` | 3_Kernel/2_libraries/buddyMemoryManager.c:55-64 | on linked memory: the block is the new head of its list; all other lists and nodes keep their shape |
| `BuddyHeap.Heap.RemoveFromFreeList` | 3_Kernel/2_libraries/buddyMemoryManager.c:67-79 | on linked memory: exactly that block leaves its list |
| `BuddyHeap.Heap.FindAndRemoveBuddy` | 3_Kernel/2_libraries/buddyMemoryManager.c:82-94 | returns the buddy if and only if it is free at that order, unlinked; otherwise nothing changes |
| `BuddyHeap.Heap.SplitBlock` | 3_Kernel/2_libraries/buddyMemoryManager.c:97-107 | both halves are pushed, upper half first in the list; nothing below the minimum order |
| `BuddyHeap.Heap.constructor` | 3_Kernel/2_libraries/buddyMemoryManager.c:110-136 | a heap of one free block of the top order |
| `BuddyHeap.Heap.MyMemInit` | 3_Kernel/2_libraries/buddyMemoryManager.c:110-136 | reinitialisation reaches that state from any state |
| `BuddyHeap.Heap.MyMalloc` | 3_Kernel/2_libraries/buddyMemoryManager.c:139-186 | the pointer program refines the abstract allocation, with tiling, coalescing, linked lists, headers and used_mem kept |
| `BuddyHeap.Heap.MyFree` | 3_Kernel/2_libraries/buddyMemoryManager.c:189-225 | the pointer program refines the abstract free, for live pointers and for any pointer at which memory can be read |
| `BuddyHeap.Heap.MergeAndRelease` | 3_Kernel/2_libraries/buddyMemoryManager.c:210-225 | the merging loop with its insertion refines the recursive merge |
| `BuddyHeap.Heap.MemDump` | 3_Kernel/2_libraries/buddyMemoryManager.c:228-231 | reported free memory is the bytes on the free lists plus the tail of the heap above the largest power of two |
| `FirstFitModel.CoalesceNormal` | 3_Kernel/2_libraries/memoryManager.c:76-85 | one pass of the loop leaves no two adjacent free blocks, whatever the list before |
| `FirstFitModel.CoalesceLive` | 3_Kernel/2_libraries/memoryManager.c:76-85 | the pass moves no live block and changes no size |
| `FirstFitModel.MallocEffect` | 3_Kernel/2_libraries/memoryManager.c:36-66 | adds one live block of at least the aligned size and less than a header and four bytes more; used_mem grows by it with its header; a NULL changes nothing |
| `FirstFitModel.FreeEffect` | 3_Kernel/2_libraries/memoryManager.c:68-86 | removes exactly the live block of the pointer, used_mem shrinks by it with its header, and the list is coalesced |
| `FirstFitModel.LayoutCanonical` | 3_Kernel/2_libraries/memoryManager.c:36-86 | a coalesced block list is determined by its live blocks and its total size |
| `FirstFitModel.TotalIsUsedAndVacant` | 3_Kernel/2_libraries/memoryManager.c:88-91 | total memory is used memory plus the free blocks with their headers |
| `FirstFitTheorems.VacantRunInBlock` | 3_Kernel/2_libraries/memoryManager.c:41-65 | a run of unallocated bytes lies in a single free block |
| `FirstFitTheorems.MallocFailsIff` | 3_Kernel/2_libraries/memoryManager.c:36-66 | NULL if and only if no unallocated run holds the aligned request and a header |
| `FirstFitTheorems.MallocLowest` | 3_Kernel/2_libraries/memoryManager.c:41-60 | the block starts no higher than any unallocated run that would do |
| `FirstFitTheorems.MallocSize` | 3_Kernel/2_libraries/memoryManager.c:41-57 | told by the allocated blocks alone: the block gets exactly the aligned size if the vacant run it starts is longer by two headers and four bytes at least, and the whole run otherwise |
| `FirstFitTheorems.MallocDetermined` | 3_Kernel/2_libraries/memoryManager.c:36-66 | so a request that can be met is determined by the allocated blocks: it gets the lowest vacant run that fits, with that size, and used_mem grows by it with its header |
| `FirstFitTheorems.AlignRoundsUpIff` | 3_Kernel/2_libraries/memoryManager.c:15-37 | ALIGN4 is the next multiple of four if and only if that fits in 32 bits; above, the request shrinks |
| `FirstFitTheorems.FreeUndoesMalloc` | 3_Kernel/2_libraries/memoryManager.c:36-86 | freeing what my_malloc just returned restores the block list exactly |
| `FirstFitTheorems.ReachesNormal` | 3_Kernel/2_libraries/memoryManager.c:36-86 | after any history the list tiles the heap and has no adjacent free blocks |
| `FirstFitTheorems.HistoriesAgree` | 3_Kernel/2_libraries/memoryManager.c:36-86 | two histories leaving the same live blocks leave the same list, header for header |
| `FirstFitTheorems.AllFreedIsOneBlock` | 3_Kernel/2_libraries/memoryManager.c:23-34 | after any history that frees everything the list is the initial one |
| `FirstFitHeap.Heap.constructor` | 3_Kernel/2_libraries/memoryManager.c:23-34 | one free block behind one header |
| `FirstFitHeap.Heap.MyMalloc` | 3_Kernel/2_libraries/memoryManager.c:36-66 | the list walk with in-place division refines the abstract allocation |
| `FirstFitHeap.Heap.MyFree` | 3_Kernel/2_libraries/memoryManager.c:68-86 | the in-place free and joining pass refine the abstract free |
| `FirstFitHeap.Heap.CoalesceList` | 3_Kernel/2_libraries/memoryManager.c:76-85 | the joining loop terminates and computes the coalesced list |
| `FirstFitHeap.Heap.MemDump` | 3_Kernel/2_libraries/memoryManager.c:88-91 | reported free memory is the free blocks with their headers |
| `ProcessMemory.CreateExtends` | 3_Kernel/2_libraries/process.c:36-83 | a successful creation adds record, stack, argument vector and one block per argument, all distinct, and nothing else |
| `ProcessMemory.CreatedHolds` | 3_Kernel/2_libraries/process.c:36-127 | record, stack and copies have room for what they hold, terminators included, and the vector for all pointers and the NULL, for sizes ALIGN4 can round |
| `ProcessMemory.DestroyUndoesCreate` | 3_Kernel/2_libraries/process.c:36-97 | destroying a process just created restores the heap exactly, for any arguments |
| `ProcessMemory.DestroyTakesOnlyItsOwn` | 3_Kernel/2_libraries/process.c:88-97 | however the heap changed in between, destruction frees the blocks of that process and no other |
| `ProcessMemory.FailureRestoresIff` | 3_Kernel/2_libraries/process.c:48-76 | a failed creation restores the heap if and only if it did not get as far as the argument strings; past that the vector and the strings copied leak |
| `ProcessMemory.LeakHappens` | 3_Kernel/2_libraries/process.c:113-121 | a heap and arguments with which creation fails on a string and leaves the vector allocated |
| `ProcessMemory.FreeAllRestores` | 3_Kernel/2_libraries/process.c:142-151 | giving back what was allocated, in any order, restores the list |
| `ProcessMemory.MallocApart` | 3_Kernel/2_libraries/process.c:113-122 | a new block overlaps no live one |
| `ProcessMemory.RecordApartFromVector` | 3_Kernel/2_libraries/process.c:48-71 | the record is not overwritten when the vector is filled |
| `Processes.Processes.CreateProcess` | 3_Kernel/2_libraries/process.c:36-83 | on the in-place heap: outcome and heap are those of the abstract creation, and the record holds the pointers destruction will follow |
| `Processes.Processes.DuplicateArgv` | 3_Kernel/2_libraries/process.c:102-127 | on the in-place heap: the vector holds the copies in order and ends with NULL |
| `Processes.Processes.FreeArgv` | 3_Kernel/2_libraries/process.c:142-151 | frees each string found in the vector up to NULL, then the vector |
| `Processes.Processes.DestroyProcess` | 3_Kernel/2_libraries/process.c:88-97 | frees exactly what the record and the vector point to |
| `SchedulerTheorems.ScheduleChooses` | 3_Kernel/2_libraries/scheduler.c:58-83 | there is always a process to run: the current one with quantum left, or the cyclically next READY one, which gets its full priority as quantum |
| `SchedulerTheorems.StepKeepsInv` | 3_Kernel/2_libraries/scheduler.c:58-425 | every timer tick, yield, block, unblock, sleep, creation, kill, exit, wait, reap and priority change keeps: exactly one RUNNING process, and it is current; slot i holds process i; size counts them; priorities in 1..4 and quantum within priority; init runnable |
| `SchedulerTheorems.RunKeepsInv` | 3_Kernel/2_libraries/scheduler.c:58-425 | the same over runs of any length |
| `SchedulerTheorems.BootInv` | 3_Kernel/2_libraries/scheduler.c:30-48 | the first timer tick after initialisation establishes it |
| `SchedulerTheorems.MarkedBlockedMid` | 3_Kernel/2_libraries/scheduler.c:320-335 | what holds between marking a process BLOCKED and the context switch suffices for the switch |
| `SchedulerTheorems.KillInv` | 3_Kernel/2_libraries/scheduler.c:172-191 | a kill, of the running process or another, restores the invariant |
| `SchedulerTheorems.ExitInv` | 3_Kernel/2_libraries/scheduler.c:263-286 | an exit does too; its TERMINATED mark never survives the step |
| `Effects.StepOnSlot` | 3_Kernel/2_libraries/scheduler.c:58-425 | a reference for every event, slot by slot, told by the tables before it: blocked or not, parent, child waited for, priority, unkillable flag and end of sleep of every slot afterwards |
| `Effects.StepOnTurn` | 3_Kernel/2_libraries/scheduler.c:58-425 | and whose turn it is: without a switch nothing changes but a priority set; with one the clock moves, a tick takes one unit of the quantum left, and otherwise the first runnable slot going round gets a whole turn |
| `Effects.LeavingWakesParent` | 3_Kernel/2_libraries/scheduler.c:172-286 | whoever is killed or exits leaves its slot and its sleep entry empty; a process blocked before is runnable, with no sleep entry, if it is the parent waiting for that child, and else still blocked unless its sleep ends at the switch |
| `Effects.ChildrenAfter` | 3_Kernel/2_libraries/scheduler.c:162-286 | the children of a killed process get init as parent, those of one that exits keep their parent number, and all others keep theirs |
| `Effects.KillIffMortal` | 3_Kernel/2_libraries/scheduler.c:172-191 | killing a process created unkillable changes nothing at all; killing any other leaves its slot empty |
| `Effects.FlagStays` | 3_Kernel/2_libraries/scheduler.c:85-307 | no event changes the flag a process was created with; a process leaves the table only by its own exit, by being reaped, or, without the flag, by a kill |
| `Effects.UnkillableStays` | 3_Kernel/2_libraries/scheduler.c:172-191 | in any run an unkillable process stays in its slot until it exits or is reaped |
| `Effects.BootSlot` | 3_Kernel/2_libraries/scheduler.c:30-48 | after the first tick there is init alone, unkillable, with the lowest priority, and nobody sleeps |
| `Fairness.ScheduleProgress` | 3_Kernel/2_libraries/scheduler.c:382-414 | every call of schedule dispatches a waiting process or lowers its measure, five times its cyclic distance plus the quantum left |
| `Fairness.StepProgress` | 3_Kernel/2_libraries/scheduler.c:58-425 | no step of any kind raises that measure, except a process renewing its own priority |
| `Fairness.NoStarvation` | 3_Kernel/2_libraries/scheduler.c:382-414 | a process that stays READY is dispatched within 5 * d timer handler runs, d its cyclic distance from the running one |
| `Fairness.SelfPriorityStarves` | 3_Kernel/2_libraries/scheduler.c:216-226 | setPriority breaks the bound: from any state with a READY process there are arbitrarily long runs in which it never runs |
| `Fairness.TurnGoesOn` | 3_Kernel/2_libraries/scheduler.c:390-396 | with quantum left a tick keeps the running process and uses one unit |
| `Fairness.TurnEnds` | 3_Kernel/2_libraries/scheduler.c:399-411 | without, another process that was READY is dispatched with its full quantum, and it comes before every waiting process going round: none is passed over |
| `Fairness.TurnLength` | 3_Kernel/2_libraries/scheduler.c:382-414 | a process dispatched with priority q while another is READY runs for exactly q + 1 ticks |
| `Rotation.PassOn` | 3_Kernel/2_libraries/scheduler.c:399-411 | the process dispatched next is exactly the first runnable slot going round, possibly the same one, and it begins a full turn |
| `Rotation.QuietTick` | 3_Kernel/2_libraries/scheduler.c:58-83 | while nobody is due to wake, each tick is one step of round robin over the shares priority + 1, and the runnable processes and their priorities stay the same |
| `Rotation.FirstRound` | 3_Kernel/2_libraries/scheduler.c:382-414 | in a round-robin sequence the slot d places on is current exactly in the ticks of its own share, which follow one another in slot order |
| `Rotation.EveryRound` | 3_Kernel/2_libraries/scheduler.c:382-414 | from a dispatch on, with only ticks and no sleeper due by the tick in question, in every round each process j is current in exactly its priority_j + 1 consecutive ticks, in slot order, and each round has the sum of these shares as its length |
| `Kinship.StepKeepsKin` | 3_Kernel/2_libraries/scheduler.c:85-307 | every step keeps: nobody is its own parent or waits for itself |
| `Kinship.ResumedReapEnabled` | 3_Kernel/2_libraries/scheduler.c:302-304 | so the process a resumed waitPid removes is neither its caller nor init |
| `Sleeping.CacheRefinesFullScan` | 3_Kernel/3_drivers/time.c:44-60 | waking with the cached next tick gives, in every slot and sleep entry, the outcome of a full scan on every tick |
| `Sleeping.WakeFromEarliest` | 3_Kernel/3_drivers/time.c:48-59 | the scan leaves the cache at the earliest end tick still active, or at the maximum |
| `Sleeping.SleepStarts` | 3_Kernel/3_drivers/time.c:66-74 | the caller is blocked until its end tick, or not blocked at all if its own context switch already reaches it |
| `Sleeping.StepOnSleeper` | 3_Kernel/3_drivers/time.c:19-74 | no step of others wakes a sleeper before its end tick, and the handler run that reaches it does |
| `Sleeping.SleepLastsExactly` | 3_Kernel/3_drivers/time.c:19-74 | a sleep of n ticks lasts exactly n handler runs (one for n = 0) in any run in which nobody names the sleeper |
| `Scheduler.Tables.constructor` | 3_Kernel/2_libraries/scheduler.c:30-41 | the table with init READY in slot 0, nobody asleep, nobody current |
| `Scheduler.Tables.FindReady` | 3_Kernel/2_libraries/scheduler.c:398-413 | the do-while scan returns the first READY slot in cyclic order, or none after a full round |
| `Scheduler.Tables.GetNextProcess` | 3_Kernel/2_libraries/scheduler.c:382-414 | in-place version refines the choice, with current, quantum and force flag |
| `Scheduler.Tables.Schedule` | 3_Kernel/2_libraries/scheduler.c:58-83 | in-place version refines the abstract step |
| `Scheduler.Tables.AddProcess` | 3_Kernel/2_libraries/scheduler.c:85-128 | first empty slot, parent the current process, lowest priority; nothing changes on failure |
| `Scheduler.Tables.Yield` | 3_Kernel/2_libraries/scheduler.c:141-144 | refines the forced reschedule: the flag, then the whole timer tick |
| `Scheduler.Tables.AdoptChildren` | 3_Kernel/2_libraries/scheduler.c:162-170 | exactly the children of pid get init as parent |
| `Scheduler.Tables.KillProcess` | 3_Kernel/2_libraries/scheduler.c:172-191 | in-place version refines the abstract kill: adoption, waking the waiting parent, removal, switch if it was running |
| `Scheduler.Tables.CleanUp` | 3_Kernel/2_libraries/scheduler.c:178-184 | in-place version refines the first part of a kill: adoption, waking the waiting parent, the sleep entry |
| `Scheduler.Tables.FinishKill` | 3_Kernel/2_libraries/scheduler.c:185-190 | in-place version refines its last part: whatever is in the slot by then is removed, with a switch if it is the running process |
| `Scheduler.Tables.UnblockProcess` | 3_Kernel/2_libraries/scheduler.c:204-213 | only a BLOCKED process changes, to READY, and loses its sleep entry |
| `Scheduler.Tables.SetPriority` | 3_Kernel/2_libraries/scheduler.c:216-226 | refines the change of priority: for existing processes and legal priorities both fields, otherwise nothing |
| `Scheduler.Tables.MyExit` | 3_Kernel/2_libraries/scheduler.c:263-286 | in-place version refines the abstract exit |
| `Scheduler.Tables.WaitPid` | 3_Kernel/2_libraries/scheduler.c:289-300 | only for a child; the caller blocks unless it is TERMINATED |
| `Scheduler.Tables.WaitReturn` | 3_Kernel/2_libraries/scheduler.c:302-306 | refines the second half of waitPid, which empties whatever slot the child had |
| `Scheduler.Tables.SleepBlock` | 3_Kernel/2_libraries/scheduler.c:320-335 | never init nor a TERMINATED process; switches when it blocks the caller |
| `Scheduler.Tables.RemoveProcess` | 3_Kernel/2_libraries/scheduler.c:418-425 | refines the removal: an occupied slot is emptied and the size lowered, an empty one is left alone |
| `Scheduler.Tables.TimerHandler` | 3_Kernel/3_drivers/time.c:19-24 | tick, wake, schedule, in place |
| `Scheduler.Tables.UnblockSleeping` | 3_Kernel/3_drivers/time.c:44-60 | the waking loop on the table of sleepers refines the scan from slot 0 |
| `Scheduler.Tables.RemoveSleeping` | 3_Kernel/3_drivers/time.c:62-64 | refines the removal of the entry of one process, in use or not |
| `Scheduler.Tables.Sleep` | 3_Kernel/3_drivers/time.c:66-74 | entry, cache and block, in place |
| `WaitQueue.Ring.constructor` | 3_Kernel/2_libraries/synchro.c:125-127 | an empty ring |
| `WaitQueue.Ring.Pop` | 3_Kernel/2_libraries/synchro.c:57-64 | the ring refines removal of the first element |
| `WaitQueue.Ring.Add` | 3_Kernel/2_libraries/synchro.c:66-73 | the ring refines append, refused when full |
| `WaitQueue.Ring.Find` | 3_Kernel/2_libraries/synchro.c:207-218 | finds the first occurrence across the wraparound |
| `WaitQueue.Ring.Shift` | 3_Kernel/2_libraries/synchro.c:222-226 | the shifting loop across the wraparound moves every later element one place forward, except that it does not run at all when the element found is where the next one would be written |
| `WaitQueue.Ring.RemoveProcess` | 3_Kernel/2_libraries/synchro.c:203-233 | in place: the abstract removal, with that exception |
| `WaitQueue.DequeuedRightIff` | 3_Kernel/2_libraries/synchro.c:203-233 | it is removal of the first occurrence, order kept, if and only if the element is not the head of a full queue (or the queue holds nothing else) |
| `SemaphoreModel.ServiceOrder` | 3_Kernel/2_libraries/synchro.c:157-233 | for one semaphore, over all runs of waits, posts and removals: grants in arrival order skipping only removed waits; value = initial + posts - passes - grants; nobody passes while somebody is queued |
| `SemaphoreModel.ApplyKeepsAccounted` | 3_Kernel/2_libraries/synchro.c:157-201 | each operation keeps that account |
| `SemaphoreModel.DropEffect` | 3_Kernel/2_libraries/synchro.c:203-233 | removal takes exactly that process out of a queue without repetition that is not full |
| `SemaphoreModel.Pigeonhole` | 3_Kernel/2_libraries/synchro.c:66-73 | a queue of distinct process numbers is no longer than there are numbers |
| `Semaphores.Semaphore.constructor` | 3_Kernel/2_libraries/synchro.c:123-129 | a semaphore with its initial value, one user and no waiters |
| `Semaphores.Semaphore.SemWait` | 3_Kernel/2_libraries/synchro.c:166-179 | on ring and process table in place: pass, or queue and block the caller, or refuse when full |
| `Semaphores.Semaphore.SemPost` | 3_Kernel/2_libraries/synchro.c:190-200 | on ring and process table in place: wake the first waiter or raise the value, never both |
| `Semaphores.Semaphore.RemoveProcess` | 3_Kernel/2_libraries/synchro.c:235-245 | one semaphore's part of the clean-up of a process |
| `Agreement.AgreementFromBoot` | 3_Kernel/2_libraries/synchro.c:157-245 | from boot on, after any system calls other than those listed below, where a kill may pause between its clean-up and its removal: each queued process is live and BLOCKED, in one queue only and once, init is in none, and no queue is full |
| `Agreement.PerformKeepsAgrees` | 3_Kernel/2_libraries/synchro.c:102-245 | every such call keeps the agreement between queues and process table, closing a semaphore with waiters included |
| `Agreement.QueuesNeverFill` | 3_Kernel/2_libraries/synchro.c:66-68 | as long as queues and process table agree, which keeps init out of the queues, a wait is never refused for a full queue and the removal exception does not occur |
| `Agreement.StepParked` | 3_Kernel/2_libraries/scheduler.c:58-425 | a queued process stays parked through every scheduler step that does not wake, kill or reap it by number |
| `Agreement.KillLeavesNoTrace` | 3_Kernel/2_libraries/scheduler.c:151-191 | after a kill without a pause the process is in no queue, so its slot can be reused |
| `Agreement.KillIsCleanRemove` | 3_Kernel/2_libraries/scheduler.c:172-191 | a kill without a pause is its clean-up followed by its removal |
| `Agreement.CleanAgrees` | 3_Kernel/2_libraries/scheduler.c:172-184 | the clean-up keeps the agreement and takes the process out of every queue |
| `Agreement.FinishAgreesIff` | 3_Kernel/2_libraries/scheduler.c:185-190 | the removal, whatever came in between, keeps the agreement if and only if the process removed is not queued again; if it is the running one, it never is |
| `Agreement.WaitAgreesIff` | 3_Kernel/2_libraries/synchro.c:157-180 | a wait keeps the agreement if and only if it is not init's on a semaphore it cannot pass: init would be queued and not blocked |
| `Agreement.CloseStrandsWaiters` | 3_Kernel/2_libraries/synchro.c:135-155 | whoever is queued when the last user closes the semaphore stays BLOCKED and ungranted in every run from there on in which nobody wakes, kills or removes it by number |
| `Agreement.LateReapAgreesIff` | 3_Kernel/2_libraries/scheduler.c:302-304 | a waitPid resuming after its slot was taken over keeps the agreement if and only if the new process is not queued |
| `Agreement.ResumedReapLegalIff` | 3_Kernel/2_libraries/scheduler.c:302-304 | in every run from boot, a resumed waitPid keeps within the claim if and only if no semaphore waiter has taken over the slot |
| `Agreement.DirectUnblockAgreesIff` | 3_Kernel/2_libraries/scheduler.c:204-213 | waking a process by number keeps the agreement if and only if it is not queued: semWait does not look again |
| `KernelEffects.PerformOnSlot` | 3_Kernel/2_libraries/synchro.c:157-245 | the same reference for kernel calls: a wait that cannot pass blocks the running process, a post wakes the first waiter, the two parts of a kill, and no other slot changes |
| `KernelEffects.PerformOnSem` | 3_Kernel/2_libraries/synchro.c:102-245 | a reference for value, users and queue of every semaphore through every call |
| `KernelEffects.UnkillableUntouched` | 3_Kernel/2_libraries/scheduler.c:172-176 | neither a kill nor its first part does anything to an unkillable process, its place in queues included |
| `KernelEffects.WhoIsThere` | 3_Kernel/2_libraries/scheduler.c:85-307 | who is in the table after a call: the flag is as given at creation, and only exit, reaping and kills take a process out |
| `KernelService.KernelServiceOrder` | 3_Kernel/2_libraries/synchro.c:157-245 | along every run from boot, each open semaphore has a history since its opening: its queue is the waits not yet granted or removed, in arrival order, grants skipped removed waits only, and its value is what the counts say; no assumption about full queues |
| `KernelService.OpMatches` | 3_Kernel/2_libraries/synchro.c:157-245 | each system call does to the semaphore exactly its one history operation, or nothing |
| `Misfortunes.DirectUnblockHappens` | 3_Kernel/2_libraries/scheduler.c:204-213 | a run from boot after which waking a semaphore waiter by number leaves it READY and still queued |
| `Misfortunes.LateReapHappens` | 3_Kernel/2_libraries/scheduler.c:302-304 | a run from boot after which a resumed waitPid removes a semaphore waiter that had taken over the slot, and leaves its number queued |
| `Misfortunes.StrandedHappens` | 3_Kernel/2_libraries/synchro.c:135-155 | a run from boot after which a close leaves a waiter behind, which then never runs again unless somebody names it |
| `Misfortunes.FullTableHappens` | 3_Kernel/2_libraries/synchro.c:105-113 | a run from boot after which opening an existing name is refused and the matching close removes it from its real user |
| `SemaphoreTable.UpdateRepresents` | 3_Kernel/2_libraries/synchro.c:75-90 | changing the semaphore in one slot changes that name and no other |
| `SemaphoreTable.SlotLeft` | 3_Kernel/2_libraries/synchro.c:48-55 | distinct names need as many entries as filled slots, so below the limit getFreeId finds a slot |
| `SemaphoreTable.PerformKeepsInUse` | 3_Kernel/2_libraries/synchro.c:102-155 | no semaphore in the table is ever without a user |
| `SemaphoreTable.CloseUndoesOpenIff` | 3_Kernel/2_libraries/synchro.c:102-155 | closing right after opening restores the table if and only if the name was new or the table not full: with a full table even an existing name is refused, and the close then takes away another user |
| `SemaphoreTable.Manager.constructor` | 3_Kernel/2_libraries/synchro.c:92-100 | an empty table |
| `SemaphoreTable.Manager.GetIdxByName` | 3_Kernel/2_libraries/synchro.c:75-82 | finds the slot of a name, or -1 if no slot has it |
| `SemaphoreTable.Manager.GetFreeId` | 3_Kernel/2_libraries/synchro.c:48-55 | finds an empty slot if there is one |
| `SemaphoreTable.Manager.WaitAt` | 3_Kernel/2_libraries/synchro.c:166-179 | the ring and value of one semaphore change as in the model, and those of all others stay as they were |
| `SemaphoreTable.Manager.PostAt` | 3_Kernel/2_libraries/synchro.c:190-200 | likewise for a post |
| `SemaphoreTable.Manager.DropAt` | 3_Kernel/2_libraries/synchro.c:240-242 | likewise for a removal |
| `SemaphoreTable.Manager.SemOpen` | 3_Kernel/2_libraries/synchro.c:102-133 | on a table of semaphores each with its own ring: the abstract opening by name, which succeeds exactly below the limit and for an existing name or with memory |
| `SemaphoreTable.Manager.SemClose` | 3_Kernel/2_libraries/synchro.c:135-155 | on the same table: one user less, and removal with the last |
| `SemaphoreTable.Manager.SemWait` | 3_Kernel/2_libraries/synchro.c:157-180 | on the same table with the process table: the abstract wait on that name and no other, through its ring |
| `SemaphoreTable.Manager.SemPost` | 3_Kernel/2_libraries/synchro.c:182-201 | on the same table with the process table: the abstract post on that name and no other, through its ring |
| `SemaphoreTable.Manager.RemoveFromAll` | 3_Kernel/2_libraries/synchro.c:235-245 | on the same table: the process leaves every ring, and nothing else changes |
| `SemaphoreTable.Manager.KillProcess` | 3_Kernel/2_libraries/scheduler.c:151-191 | killProcess on process table, semaphores and rings together is the abstract step when it does not pause |
| `SemaphoreTable.Manager.CleanUp` | 3_Kernel/2_libraries/scheduler.c:151-184 | its first part is the abstract clean-up, with the process out of every ring |
| `SemaphoreTable.Manager.FinishKill` | 3_Kernel/2_libraries/scheduler.c:185-190 | its last part is the abstract removal and leaves the semaphores alone |
| `Pipes.PipeCorrect` | 3_Kernel/2_libraries/pipes.c:62-98 | for any interleaving of readers, writers and kills in which init does not have to wait: bytes read followed by bytes in the buffer are the bytes written; positions and size describe the buffer; value, granted and lost writers add up to the free places, and the same for readers and bytes; no transfer overruns or underruns |
| `Pipes.StepSafe` | 3_Kernel/2_libraries/pipes.c:70-95 | each such step puts a byte only into a buffer that is not full and takes one only from a buffer that is not empty |
| `Pipes.WriteKeeps` | 3_Kernel/2_libraries/pipes.c:70-76 | a write, passing or blocking, keeps the account |
| `Pipes.KillKeeps` | 3_Kernel/2_libraries/scheduler.c:172-191 | so does the removal of a process at any point, with a grant lost if one was pending |
| `Pipes.CutKeeps` | 3_Kernel/2_libraries/scheduler.c:151-184 | and so does the clean-up of a kill that then pauses |
| `Pipes.StoppedIff` | 3_Kernel/2_libraries/pipes.c:70-95 | a pipe has stopped for good, so that no step of anybody now or later moves a byte, if and only if 1024 grants were lost to kills |
| `Pipes.PipeStops` | 3_Kernel/2_libraries/pipes.c:70-95 | a run in which that happens: 1024 times a writer that writes by descriptor, the pipe not being its output, is queued, granted by a read and killed; then a writer and a reader queue and wait forever |
| `Pipes.BothQueuedNeedsLosses` | 3_Kernel/2_libraries/pipes.c:70-95 | a reader and a writer can both be queued only after kills have lost at least 963 grants, and places are then all accounted for by lost and pending grants |
| `Pipes.BothQueuedAtBound` | 3_Kernel/2_libraries/pipes.c:70-95 | a run that reaches this with exactly 963 losses, of writers by descriptor likewise |
| `Pipes.QueuedMeansFullOrEmpty` | 3_Kernel/2_libraries/pipes.c:70-95 | with no grant lost or pending, queued writers mean a full pipe and queued readers an empty one |
| `Pipes.PipeBuffer.constructor` | 3_Kernel/2_libraries/pipes.c:34-36 | an empty buffer of PIPE_SIZE bytes |
| `Pipes.PipeBuffer.Put` | 3_Kernel/2_libraries/pipes.c:72-74 | in place: the byte goes behind those in the pipe |
| `Pipes.PipeBuffer.Take` | 3_Kernel/2_libraries/pipes.c:91-93 | in place: the oldest byte is taken |
| `PipeViews.CutFine` | 3_Kernel/2_libraries/scheduler.c:151-184 | the clean-up of a kill takes the process and its unfinished transfer out of one pipe and keeps that pipe's account |
| `PipeViews.ResumePutFine` | 3_Kernel/2_libraries/pipes.c:70-76 | a granted process puts its byte and grants or counts a reader |
| `PipeViews.VanishFine` | 3_Kernel/2_libraries/scheduler.c:185-190 | removing a process that is not queued turns its pending grant into a lost one |
| `PipeTheorems.StartPutKeeps` | 3_Kernel/2_libraries/pipes.c:70-76 | a put of the running process, blocked or not, keeps process table, queues and all pipes in order |
| `PipeTheorems.StartTakeKeeps` | 3_Kernel/2_libraries/pipes.c:89-95 | so does a take |
| `PipeTheorems.ResumePutKeeps` | 3_Kernel/2_libraries/pipes.c:70-76 | so does the rest of a put after the wait |
| `PipeTheorems.CleanedKeeps` | 3_Kernel/2_libraries/scheduler.c:151-184 | so does the clean-up of a kill, wherever the victim was, and it leaves the victim in no queue |
| `PipeTheorems.KillKeepsIff` | 3_Kernel/2_libraries/scheduler.c:151-191 | up to its end or its wait for room, a kill keeps everything in order if and only if it is not init's of a killable process whose output is an open pipe without room |
| `PipeTheorems.FinishKeepsIff` | 3_Kernel/2_libraries/pipes.c:100-113 | after that wait, the end-of-file byte and the removal keep everything in order if and only if nobody with the victim's number is queued when the byte has been put; for a process that kills itself nobody ever is |
| `PipeTheorems.VictimQueuedIff` | 3_Kernel/2_libraries/pipes.c:100-113 | that is seen before the byte is put: queued anywhere, other than first among those waiting for bytes of that pipe |
| `PipeTheorems.InitOverwrites` | 3_Kernel/2_libraries/pipes.c:100-113 | init's end-of-file byte goes in all the same, over the oldest unread byte and past the size if and only if the pipe is full |
| `PipeTheorems.DoKeeps` | 3_Kernel/2_libraries/pipes.c:62-113 | every act other than those listed below keeps process table, queues and all pipes in order |
| `PipeTheorems.SystemCorrect` | 3_Kernel/2_libraries/pipes.c:62-113 | in every run from boot, over any number of pipes, processes, writes, reads, kills with their end-of-file bytes and other calls: queued processes are live, BLOCKED and in one queue, init in none, no queue is full; each pipe holds exactly the bytes put and not taken, in order and within its size; its free places and its bytes are the values, the grants pending and those lost; only its writers and readers queue at it |
| `Deliveries.BytesDelivered` | 3_Kernel/2_libraries/pipes.c:62-113 | in every run from boot, with a ledger kept of the acts alone (process and byte of every write to an open pipe, and EOF for every kill that sends one): each pipe was given exactly the bytes that went through, in order, and readers took the first of them; the bytes of each process that went through are the first it issued, with at most one left, which it is still at unless it was cut off or is gone |
| `Deliveries.EntryKeepsBooked` | 3_Kernel/2_libraries/pipes.c:62-113 | every act keeps pipes and ledger in step |
| `Deliveries.KillCompletes` | 3_Kernel/2_libraries/scheduler.c:172-191 | a killer that had to wait for room removes, when it runs again, the process it set out to kill |
| `Deliveries.ActPeople` | 3_Kernel/2_libraries/scheduler.c:85-307 | in every run from boot an act takes out of the table exactly the process that exits, is reaped, or whose killer need not wait any more, and never changes a flag |
| `Deliveries.UnkillableStands` | 3_Kernel/2_libraries/scheduler.c:172-176 | a kill of an unkillable process does nothing, whatever its output is |
| `Deliveries.OutputsStay` | 3_Kernel/2_libraries/scheduler.c:85-128 | in every run from boot a process keeps the output it was created with |
| `Deliveries.ReadTakes` | 3_Kernel/2_libraries/pipes.c:81-98 | a read takes the oldest byte not yet taken if one is to spare; otherwise the reader is blocked, last in the queue |
| `Deliveries.ResumedTakes` | 3_Kernel/2_libraries/pipes.c:89-95 | a reader that had to wait takes the oldest byte not yet taken when it runs again |
| `Deliveries.PipeIsNew` | 3_Kernel/2_libraries/pipes.c:30-46 | a new pipe is empty, with semaphores of its own that allow 1024 bytes to be put and none to be taken, and nothing else changes |
| `Deliveries.CallsOnSlot` | 3_Kernel/2_libraries/scheduler.c:58-425 | creations and other calls leave in every slot what the reference expects, in the machine with pipes too |
| `PipeMisfortunes.InitKillHappens` | 3_Kernel/2_libraries/pipes.c:100-113 | a run from boot to a full pipe whose writer init kills: one byte is overwritten, the size becomes 1025, and init is left in the queue |
| `PipeMisfortunes.LateRemovalHappens` | 3_Kernel/2_libraries/scheduler.c:172-191 | a run from boot in which the killer waits for room, the victim queues behind it and is then removed while queued; the next post is lost on it |
| `Philosophers.Left` | 4_Userland/shellCodeModule/2_libraries/phylo.c:43-45 | the modulo expression is the cyclic predecessor, for any count from one on |
| `Philosophers.Right` | 4_Userland/shellCodeModule/2_libraries/phylo.c:46-48 | the modulo expression is the cyclic successor |
| `Philosophers.MoveKeepsInv` | 4_Userland/shellCodeModule/2_libraries/phylo.c:109-156 | every step of every philosopher keeps the protocol invariant: one holder of the mutex, its queue exactly those waiting, moods fit places, tokens as owed, neighbours not both eating |
| `Philosophers.AddKeepsInv` | 4_Userland/shellCodeModule/2_libraries/phylo.c:158-178 | a philosopher joining keeps it, although two old neighbours are parted |
| `Philosophers.NeighboursNeverEatTogether` | 4_Userland/shellCodeModule/2_libraries/phylo.c:109-178 | in any run from the empty table, with any interleaving and any joins, no two distinct neighbours eat |
| `Philosophers.TokenMeansMayEat` | 4_Userland/shellCodeModule/2_libraries/phylo.c:119-134 | a private semaphore is 0 or 1, and 1 exactly while its owner may eat, was posted and has not passed its wait; whoever passed it is eating |
| `Philosophers.MoveKeepsServed` | 4_Userland/shellCodeModule/2_libraries/phylo.c:119-143 | every step keeps: whoever is hungry has an eating neighbour or is about to be tested |
| `Philosophers.HungryWaitsForEater` | 4_Userland/shellCodeModule/2_libraries/phylo.c:119-143 | with a fixed number, whenever the mutex is free every hungry philosopher has an eating neighbour |
| `Joining.NoDeadlock` | 4_Userland/shellCodeModule/2_libraries/phylo.c:109-178 | in every run from the empty table, with joins at any time, somebody can move |
| `Joining.MoveKeepsOneTests` | 4_Userland/shellCodeModule/2_libraries/phylo.c:127-134 | every step keeps: when all are hungry, one of them is about to test itself |
| `Joining.JoinKeepsServedIff` | 4_Userland/shellCodeModule/2_libraries/phylo.c:158-178 | whoever holds the mutex and however many are seated, a join leaves somebody hungry without an eating neighbour and without a test to come if and only if the first or the last was hungry, outside its own test, and its remaining neighbour neither eats nor will test it |
| `Joining.PairNotStranded` | 4_Userland/shellCodeModule/2_libraries/phylo.c:158-178 | with the mutex free this never happens to one or two |
| `Joining.JoinStrands` | 4_Userland/shellCodeModule/2_libraries/phylo.c:158-178 | a run in which it does happen to the first of three |
| `Dining.Dinner.constructor` | 4_Userland/shellCodeModule/2_libraries/phylo.c:14-18 | nobody seated, everybody thinking |
| `Dining.Dinner.Test` | 4_Userland/shellCodeModule/2_libraries/phylo.c:119-125 | in place: k starts eating, and its semaphore is to be posted, exactly when it is hungry between two who do not eat |
| `Dining.Dinner.Become` | 4_Userland/shellCodeModule/2_libraries/phylo.c:109-138 | in place: the writes by which a philosopher becomes thinking, hungry or eating are those of the protocol steps at these points |
| `Dining.Dinner.AddPhilosopher` | 4_Userland/shellCodeModule/2_libraries/phylo.c:158-178 | in place: one more seat, thinking, up to ten |
| `BmfsModel.ScanFinds` | 0_Bootloader/BMFS/bmfs.c:659-685 | over any sorted copy of the directory the gap search finds the lowest run of free blocks if there is one; otherwise it succeeds exactly when some deleted record ends early enough |
| `BmfsModel.SortedTidy` | 0_Bootloader/BMFS/bmfs.c:659-661 | any permutation the comparison allows puts the files one behind the other without overlap and deleted records last |
| `BmfsTheorems.CreateRightIff` | 0_Bootloader/BMFS/bmfs.c:610-719 | creation is as documented (lowest free run; refused exactly for a used name, a full directory or no run that long; other files untouched) if and only if the name exists, or the directory is safe, a condition that can be checked beforehand, and the name counts as one or there is no room anyway |
| `BmfsTheorems.CreateGoodIff` | 0_Bootloader/BMFS/bmfs.c:659-702 | files stay disjoint inside the data blocks if and only if the name exists or makes no file, the directory is safe, or the creation cuts off all other files; full directories included |
| `BmfsTheorems.CreationsAreRight` | 0_Bootloader/BMFS/bmfs.c:610-719 | after any creations on a formatted disk, empty names included, files are disjoint in blocks 1 to n-2, names unique, and the next creation is right if and only if its name counts as one or there is no room |
| `BmfsTheorems.GuardedHistoriesGood` | 0_Bootloader/BMFS/bmfs.c:610-821 | with deletions mixed in, the directory is good all the way if and only if each creation meets the condition when it is issued |
| `BmfsTheorems.DeletionThenOverlap` | 0_Bootloader/BMFS/bmfs.c:672-684 | a concrete history without the condition: create, create, delete, create puts one file on top of another |
| `BmfsTheorems.NamelessFileHidesOthers` | 0_Bootloader/BMFS/bmfs.c:672-706 | after the same deletion, creating a file with an empty name ends the directory before the other file, which is no longer listed |
| `BmfsTheorems.DeleteFiles` | 0_Bootloader/BMFS/bmfs.c:802-821 | deletion removes exactly the file of that name from the listing |
| `BmfsTheorems.DeleteMarksName` | 0_Bootloader/BMFS/bmfs.c:802-821 | it overwrites the first character of the name and nothing else |
| `BmfsTheorems.DeleteUndoesCreate` | 0_Bootloader/BMFS/bmfs.c:610-821 | deleting the file just created gives the old listing, and so it does when the creation was refused, for every safe directory |
| `BmfsTheorems.FirstCreationIff` | 0_Bootloader/BMFS/bmfs.c:669-678 | on an empty disk of n blocks the placement respects the last block if and only if n is at least 2: below, the subtraction wraps around |
| `BmfsTheorems.WrittenCuts` | 0_Bootloader/BMFS/bmfs.c:700-706 | in a full directory whose first record was deleted the new end mark cuts off all other files |
| `BmfsTheorems.Sorted` | 0_Bootloader/BMFS/bmfs.c:659-661 | a sorted copy exists for every directory, deleted records included |
| `BmfsDisk.Disk.constructor` | 0_Bootloader/BMFS/bmfs.c:260-270 | a formatted directory |
| `BmfsDisk.Disk.FindFile` | 0_Bootloader/BMFS/bmfs.c:205-231 | finds a file if and only if a live record before the end mark has that name |
| `BmfsDisk.Disk.CountRecords` | 0_Bootloader/BMFS/bmfs.c:635-651 | the count of records before the end mark (0 without one) and the first reusable record |
| `BmfsDisk.Disk.FindGap` | 0_Bootloader/BMFS/bmfs.c:659-685 | the loop refines the recursive search |
| `BmfsDisk.Disk.CreateFile` | 0_Bootloader/BMFS/bmfs.c:610-719 | the buffer and the outcome are those of the abstract creation, for any result of the sort |
| `BmfsDisk.Disk.DeleteFile` | 0_Bootloader/BMFS/bmfs.c:802-821 | the buffer is that of the abstract deletion |
| `Images.WordOfLe32` | 3_Kernel/moduleLoader.c:40-45 | reading a word gives back what was written, modulo 2^32 |
| `Images.Le32Bytes` | 3_Kernel/moduleLoader.c:40-45 | least significant byte first |
| `Images.WordsAreBytes` | 3_Kernel/2_libraries/lib.c:33-50 | between aligned addresses the word path of memcpy gives the same memory as the byte path, for overlapping areas too |
| `Images.CopyIsBlit` | 3_Kernel/2_libraries/lib.c:45-49 | the target gets the source and nothing else changes, whenever the target does not start inside the source |
| `Images.CopyRepeats` | 3_Kernel/2_libraries/lib.c:45-49 | when it does, the copy is periodic with the distance as period |
| `Images.PayloadReadsBackIff` | 2_Toolchain/ModulePacker/main.c:63-84 | reading a printed image gives back the modules, and ends where it ends, if and only if every size fits 32 bits |
| `Images.LoadPackedImage` | 3_Kernel/moduleLoader.c:11-38 | loading a packed image puts every module unchanged at its target and writes nothing else, when targets do not overlap each other or start in the unread part of the image |
| `ImageTools.Packer.WriteFile` | 2_Toolchain/ModulePacker/main.c:111-121 | the chunked loop, ended by a short read, appends the whole file once |
| `ImageTools.Packer.BuildImage` | 2_Toolchain/ModulePacker/main.c:54-87 | the output is the kernel, the number of modules, and each module behind its size |
| `ImageTools.Machine.Memcpy` | 3_Kernel/2_libraries/lib.c:17-53 | in memory, by either path, the byte-wise copy |
| `ImageTools.Machine.ReadUint32` | 3_Kernel/moduleLoader.c:40-45 | the word at the cursor, and the cursor behind it |
| `ImageTools.Machine.LoadOne` | 3_Kernel/moduleLoader.c:21-38 | in memory: one module copied, the cursor behind it |
| `ImageTools.Machine.LoadAll` | 3_Kernel/moduleLoader.c:11-19 | in memory: the whole walk over the image |
| `Numerals.ToUndoesFrom` | 4_Userland/shellCodeModule/2_libraries/stdLib.c:268-319 | to_decimal gives back every number below 2^31 that from_decimal wrote, in any base from 2 to 16 |
| `Numerals.SmallReadsSame` | 4_Userland/shellCodeModule/2_libraries/stdLib.c:275-283 | replacing any letters from A to F by small ones does not change what to_decimal reads |
| `Numerals.SmallRoundTrip` | 4_Userland/shellCodeModule/2_libraries/stdLib.c:268-319 | a number that from_decimal wrote is read back with any of its letters made small |
| `Numerals.RefusedIff` | 4_Userland/shellCodeModule/2_libraries/stdLib.c:275-290 | to_decimal answers -1 for a text if and only if one of its characters is no digit, capital or small, below the base |
| `Numerals.ReadsPositional` | 4_Userland/shellCodeModule/2_libraries/stdLib.c:268-295 | it reads the digits as their sum in powers of the base, as long as that stays below 2^31 |
| `Numerals.FromUndoesToIff` | 4_Userland/shellCodeModule/2_libraries/stdLib.c:268-319 | from_decimal gives back the text to_decimal has read if and only if it was canonical: no small letters, no leading zeros |
| `Numerals.ItoaInjective` | 3_Kernel/2_libraries/lib.c:94-111 | itoa gives no two numbers the same text; it differs from decimal notation exactly for zero, which it writes as nothing |
| `Numerals.ItoaReads` | 3_Kernel/2_libraries/lib.c:94-111 | a minus sign exactly for negative numbers, then digits that read back as the absolute value, most significant first; nothing for zero |
| `Numerals.PipeNamesClashIff` | 3_Kernel/2_libraries/pipes.c:37-44 | two pipes get the same semaphore name if and only if a multiple of 32768 pipes lie between them, when the 16-bit counter comes round |
| `NumeralText.ReversePart` | 3_Kernel/2_libraries/lib.c:73-80 | in-place reversal |
| `NumeralText.ItoaInto` | 3_Kernel/2_libraries/lib.c:94-111 | the buffer ends up holding the number most significant digit first, terminated |
| `NumeralText.FromDecimalInto` | 4_Userland/shellCodeModule/2_libraries/stdLib.c:297-319 | the same for any base |
| `NumeralText.ToDecimalOf` | 4_Userland/shellCodeModule/2_libraries/stdLib.c:268-295 | the value read, or -1 at the first character that is no digit of the base |
| `NumeralText.Strncat` | 3_Kernel/2_libraries/lib.c:121-129 | in place: the second text behind the first, and the new length |

## Left out

Weaker than the code, or restricted:

- BuddyTheorems.MallocFailsIff: for 32-bit sums above 2^31 the model answers NULL where the code never returns; Log2CeilEndsIff is the exact bound.
- BuddyHeap.Log2Ceil: for n up to 2^31, where its loop ends.
- BuddyHeap.OrderRange: for heaps of 32 bytes to 2^31; below there is no block of the minimum order, above log2_ceil does not end.
- BuddyHeap.TopOrder: the same sizes.
- BuddyHeap.Heap.constructor: the same sizes.
- BuddyHeap.Heap.MyMemInit: the same sizes.
- BuddyHeap.Heap.MyMalloc: requests whose 32-bit sum with the header exceeds 2^31 are excluded, because log2_ceil does not end above that.
- BuddyHeap.Heap.MyFree: the pointer is NULL or has a word the allocator wrote at its header; words written by the owners of blocks are not modelled. Addresses are offsets from the heap start with -1 for NULL, and the heap lies below 4 GiB, so a list node never shows the magic number.
- FirstFitHeap.Heap.MyFree: the pointer is NULL or live; the code does not check, and freeing anything else is outside the claim.
- FirstFitHeap.Heap.constructor: the heap has room for one header.
- ProcessMemory.CreatedHolds: sizes up to 2^32 - 4; above, ALIGN4 wraps around (AlignRoundsUpIff).
- ProcessMemory.DestroyUndoesCreate: conservation is claimed for a creation that succeeds; what failure leaks is FailureRestoresIff.
- Processes.Processes.CreateProcess: the words of records and vectors are a map beside the allocator's headers; the characters of the strings, names, stacks and stack frames are not modelled.
- Processes.Processes.DuplicateArgv: the characters of the strings are not copied in the model.
- SchedulerTheorems.StepKeepsInv: init neither exits nor waits; nobody reaps itself or init, which ResumedReapEnabled shows a waitPid never does.
- SchedulerTheorems.RunKeepsInv: the same steps.
- Effects.StepOnSlot: the same steps. The cached tick is not part of a slot; CacheRefinesFullScan is about it.
- Rotation.EveryRound: only ticks happen, and no sleeper is due by then; it starts at a dispatch.
- Fairness.NoStarvation: no process renews its own priority while the other waits; SelfPriorityStarves shows why.
- Sleeping.SleepLastsExactly: nobody wakes, blocks, kills or reaps the sleeper by number meanwhile, it is not waiting for a child, and the 64-bit tick counter does not overflow.
- Scheduler.Tables.Schedule: a slot emptied under the running process is skipped, where the code still stores the stack pointer in it.
- Scheduler.Tables.AddProcess: whether createProcess finds memory is a flag; descriptors are not modelled.
- Scheduler.Tables.KillProcess: the release of standard input is not modelled; the queues are cleaned in SemaphoreTable.Manager.KillProcess, and the end-of-file byte, with the wait it may take, is in PipeKernel.KillStep, between what CleanUp and FinishKill do.
- Scheduler.Tables.MyExit: the stored exit value is not modelled; the end-of-file byte comes first, while the process is still running, and is a write of its own in PipeKernel.
- Scheduler.Tables.WaitPid: the returned value is not modelled.
- Scheduler.Tables.WaitReturn: the exit value is not modelled, because the slot is already empty or reused when waitPid reads it.
- SemaphoreModel.ServiceOrder: nobody is removed from a full queue; KernelServiceOrder needs no such assumption.
- Agreement.AgreementFromBoot: excludes waking a queued process by number, a wait of init that cannot pass, and removing a queued process, be it by a resumed waitPid or at the end of a kill that paused; DirectUnblockAgreesIff, WaitAgreesIff, LateReapAgreesIff and FinishAgreesIff characterise these, and each is shown to be possible by a run. A process that resumes inside waitPid removes the child before it does anything else, since no interrupt comes in there. The locks are no-ops inside a system call. Here a kill is its clean-up and its removal; the end-of-file byte between them is in PipeTheorems.
- Agreement.PerformKeepsAgrees: the same steps.
- Agreement.QueuesNeverFill: rests on init being in no queue, which a kill by init of the writer of a full pipe ends (KillKeepsIff).
- Agreement.KillLeavesNoTrace: for a kill that does not pause; CleanAgrees and FinishAgreesIff are about one that does.
- KernelService.KernelServiceOrder: the runs of AgreementFromBoot.
- PipeTheorems.DoKeeps: excludes what AgreementFromBoot excludes, init's waits at a pipe included, and user calls on the semaphores of a pipe, whose names are internal; pipes are not destroyed, and are created with memory and semaphores to spare and with names not in use (PipeNamesClashIff says when names repeat). A kill of a process at a pipe whose descriptor is not open writes nothing, as in the code.
- PipeTheorems.SystemCorrect: the runs of these acts.
- Deliveries.BytesDelivered: the same runs. Which reader gets which byte follows from who takes; the byte is not handed over in the model.
- Deliveries.KillCompletes: the same runs, in which the victim is not queued again when its killer resumes (FinishKeepsIff).
- PipeTheorems.KillKeepsIff: the killer is not in the middle of a transfer or of a waitPid, since no interrupt comes in there.
- SemaphoreTable.Manager.SemOpen: names are shorter than MAX_SEM_NAME_LENGTH, so none is cut off.
- SemaphoreTable.Manager.KillProcess: without the release of standard input, and for a kill that does not pause; CleanUp and FinishKill are its parts.
- Pipes.PipeCorrect: init is taken not to wait, which a kill by init of the writer of a full pipe breaks (KillKeepsIff, InitOverwrites); the end-of-file byte of a kill is a write of the killer. The loops of readPipe and writePipe are steps of an interleaving, blocked in between; the class covers the code between the system calls.
- Pipes.StepSafe: the same.
- Pipes.KillKeeps: the removal alone; the end-of-file byte is a write of the killer before it.
- Pipes.PipeStops: the pipe is not the output of the writers killed, since each of those kills would first put a byte or queue the killer.
- Pipes.BothQueuedAtBound: the same.
- Philosophers.NeighboursNeverEatTogether: removing a philosopher is excluded, since it makes two who may both be eating neighbours; adding one is a single step.
- Philosophers.HungryWaitsForEater: the number of philosophers is fixed; JoinKeepsServedIff says when joining breaks it.
- Joining.NoDeadlock: removing a philosopher is excluded here too.
- Dining.Dinner.AddPhilosopher: opening the semaphore and creating the process are taken to succeed, as the code does not check them.
- Dining.Dinner.Test: the test is one step, since its caller holds the mutex.
- BmfsTheorems.CreateRightIff: names have at most 31 characters, and the disk has at least two blocks; main passes longer names on, which run over the other fields of the record, and asks only for sizes of 1 MiB or more.
- BmfsTheorems.CreateGoodIff: the same names and disks.
- BmfsTheorems.GuardedHistoriesGood: the same.
- BmfsTheorems.CreationsAreRight: the same, and no earlier name starts with the deletion mark, since that makes a deleted record.
- BmfsTheorems.DeleteUndoesCreate: the name counts as one, and the directory is safe, without which creation may cut off files.
- BmfsDisk.Disk.CreateFile: qsort is a parameter, any permutation its comparison allows; the comparison's cast to int is exact for the disk sizes modelled.
- Images.LoadPackedImage: targets lie in memory and do not overlap; the code does not check.
- NumeralText.ToDecimalOf: signed overflow is taken to wrap around, which C leaves open; the round trips stay below it.
- NumeralText.ItoaInto: numbers above -2^31, and buffers large enough for the text.

Not modelled:

- System call 0, a busy wait with interrupts on.
- Assembly, boot loader, interrupt tables, video, font, audio, clock, keyboard ring, shell and games: hardware or user interface.
- Stack pointers, CPU tick counters, process names, and file descriptors of processes other than their output.
- destroyScheduler, processStatus, getFds, killForegroundProcess (which calls killProcess) and the orphan clean-up of init: they only read, or repeat steps already there.
- destroyPipe, descriptor lookup, and what readers make of an end-of-file byte.
- Printing in the philosophers program, and its sleeps.
- BMFS listing, reading, writing and disk initialisation: file input and output.
- The allocator copy under the memory tests: the same code as the first-fit allocator.
- itoaHex, memset and the string functions not named above: easy members.
