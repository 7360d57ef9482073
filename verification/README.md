# Verification of the Tiny OS kernel

A Dafny 4.11 model of a small 32-bit x86 kernel, with proofs. `dafny verify dfyconfig.toml` checks everything. Paths
below are those of the kernel's own source tree.

## What is modelled

**Threads, semaphores and locks** (`Scheduler*.dfy`, `RoundRobin.dfy`, `UnblockRace.dfy`, `WaiterTheft.dfy`,
`Interrupts.dfy`, `ContextSwitch.dfy`). The scheduler is a transition system on one processor. A step is one
interruptible statement of `lock_acquire`, `lock_release` or `thread_unblock`, or one section that runs with interrupts
off up to the next context switch; the timer may interrupt between any two steps while the interrupt flag is on. A
thread carries the point of the code it is at, so the unprotected reads and writes of `holder`, `holder_repeat_nr` and
of a sleeper's `status` interleave with everything else. Every reachable state satisfies an inductive invariant, from
which mutual exclusion, the absence of lost wake-ups, the partition of the threads among the queues, the exact
conditions under which an ASSERT fires, the conservation of ticks and the round-robin waiting time follow.
`SchedulerCalls` says what each whole call comes to from any reachable state when the timer leaves it alone.
`UnblockRace` and `WaiterTheft` are concrete runs in which an ASSERT fires. `SchedulerCode` is the C code, assignment
by assignment on PCB and lock objects, proved equal to the transition functions; `ContextSwitch.Cpu` is `switch_to` on
the words of the stacks.

**The intrusive list** (`IntrusiveList.dfy`) under every queue: nodes with `prev` and `next`, two sentinels, and a
ghost sequence that the pointers are proved to agree with; lists that share no node do not notice each other.

**Memory** (`Bitmap.dfy`, `PoolLayout.dfy`, `Paging.dfy`, `Memory*.dfy`, `MachineFacts.dfy`, `PageAccess.dfy`).
Physical memory is an array of 32-bit words; the translation is the two-level walk of section 4.3 of the Intel SDM,
Volume 3A. `MemoryModel` gives the allocator as functions, `MemoryInvariants` the books it keeps, `MemorySafety` and
`MemoryAllocation` what single calls do, `MemoryRuns` and `MemoryTheorems` what holds over every run of allocations,
new address spaces, switches of threads and directories and stores by programs, and `MemoryExhaustion` a run that ends
in the unchecked `palloc`. `PageAccess` says what the entries permit and which frame a page gets. The running thread
selects the address pool, the active directory the page tables, and the two are kept apart. `MemoryCode` is the code:
bitmap bytes and page-table words changed in place, page tables reached only through the self-map. `MemoryBoot` is
`setup_page` and `mem_pool_init`, which establish the invariant.

**The console** (`Console.dfy`, `ConsoleCode.dfy`): 4000 bytes of video memory as a 25-row window onto unbounded
80-column paper, and `put_int` for any number of digits.

History that the code does not store is kept beside it for the proofs: in a thread the flag its own code last set and
its nesting depth on each lock, in a lock the sequences of threads ever appended to and popped from `waiters`, in the
scheduler whether `thread_unblock` has ever pushed a thread that slept on a lock (`stolen`), and in memory what each
used frame was taken for.

### Assumptions

- Semaphores are used only through locks, only holders release, locks are initialised once, and a lock is nested less
  than 2^32 - 1 deep (`NestingLimit` shows what happens at any depth).
- `thread_unblock` may be called for any thread, one that sleeps on a lock included (`StealsWaiter`), and runs go on
  behind that. The invariant, mutual exclusion, the order of the waiters, the flag and tick theorems and `ExactPanics`
  cover such runs; `NoLostWakeUp` and `Partition` speak of the states before. `StolenWaiter` shows that the partition
  is lost exactly then. The repository's one caller, `sema_up`, keeps interrupts off and pops first. For other callers
  `CarefulRuns` gives a rule that they can keep.
- Thread functions do not return (`thread/thread.c:24` has nothing behind the call), and stacks stay inside their own
  PCB pages.
- `sema_init` never initialises `waiters` (`thread/sync.c:4-7`); the model starts with an empty list.
- The entries of the boot page tables that `setup_page` does not write are not present (`boot/loader.s:253-263` writes
  256 of them).
- Memory operations run one after the other. `page_table_add` takes the frame for a new page table from the kernel pool
  without checking that there is one (`kernel/memory.c:170`); the model stops there (`NoTableFrame`).
- While a process asks for user pages, its own directory is active, or the boot directory is and its address pool
  begins at or above 4 MB (`OwnOrBoot`); `USER_VADDR_START` is 0x8048000 (`userprog/process.h:16`). As the repository
  stands it is always the boot directory: `process_activate` (`userprog/process.c:49-58`) has no caller and `schedule`
  does not switch directories. `PageGoesToActive`, `OwnDirectoryUnchanged` and `SamePageOnlyOnce` say what follows from
  that.
- A process has a valid address pool before it allocates user pages; `create_user_vaddr_bitmap` is empty
  (`userprog/process.c:89-92`).
- Programs store only to pages that hold no page table, and not to the bitmaps, which lie in physical memory but are
  arrays of their own here. The processor's accessed and dirty bits are ignored: entries are the frame plus the three
  flags that the code sets.
- The byte behind the bitmaps of the two frame pools and of the heap is arbitrary; the searches of the frame pools look
  for one bit and never depend on it. The address pool of a process ends at or below 0xc0000000, and if it ends there
  the bit behind its map is set (`GivePool`): 753592 pages from `USER_VADDR_START` on are whole bytes and end there,
  and a search that used a clear bit there would find an address of the kernel.
- The video memory stays mapped while text is shown. Characters go through segment selectors of their own, but
  scrolling copies through the linear addresses 0xb80a0 and 0xb8000 (`lib/kernel/print.S:121-123`), which only entry 0
  of the boot directory maps; `create_page_dir` leaves entries 0 to 767 of a new directory absent
  (`userprog/process.c:74`), so scrolling faults while a process's directory is active.

### Where code and comments differ

- `sizeof` is subtracted from a `uint32_t*` in `thread_create` (`thread/thread.c:33-34`), so the first frame lies four
  times as deep as the structures are long; the proofs hold for that address.
- `bitmap_scan` tests one bit behind the map when it looks for several bits (`lib/kernel/bitmap.c:40-58`);
  `GuardDecides` says exactly when that changes the answer.
- The comment on `schedule` in `thread_block` calls the following line unreachable (`thread/thread.c:165`); it runs
  when the thread is switched back in, and the flag theorems depend on it.
- `put_int`'s comment promises a lower-case digit (`lib/kernel/print.S:157`); the code prints upper case.
- A failing `malloc_page` keeps the pages it has mapped (`kernel/memory.c:200-202`); the conservation theorems count
  them.
- `addr_v2p` lacks the name of its parameter (`kernel/memory.c:290`); `vaddr` is meant.

## Model

| member | source | states |
|---|---|---|
| SchedulerCode.Kernel.constructor | thread/thread.c:94-110 | the kernel starts with main running, alone in the list of all threads, with priority and slice 31 and interrupts off |
| SchedulerCode.Kernel.Schedule | thread/thread.c:116-145 | the code of schedule reaches exactly the state, or stops at exactly the ASSERT, that the transition system says |
| SchedulerCode.Kernel.ThreadBlock | thread/thread.c:152-166 | the same for thread_block up to the context switch |
| SchedulerCode.Kernel.ThreadUnblock | thread/thread.c:171-190 | the same for thread_unblock as sema_up calls it, with interrupts off: the thread goes to the front of the ready list and the flag is restored |
| SchedulerCode.Kernel.ThreadUnblockStatement | thread/thread.c:171-190 | the same for any other caller of thread_unblock: the ASSERT that reads the status and the section with interrupts off are two steps, between which the timer may come |
| SchedulerCode.Kernel.ThreadYield | thread/thread.c:195-209 | the same for thread_yield up to the context switch |
| SchedulerCode.Kernel.ThreadStart | thread/thread.c:72-92 | the same for thread creation, with the priority cut to a byte |
| SchedulerCode.Kernel.TimerHandler | device/timer.c:36-49 | the same for the timer interrupt behind its gate, whose ASSERT on stack_magic holds |
| SchedulerCode.Kernel.SemaDownFrom | thread/sync.c:13-26 | one turn of sema_down's re-check loop, up to the switch or the return |
| SchedulerCode.Kernel.SemaDownEnter | thread/sync.c:9-27 | sema_down from its entry, saving the flag first |
| SchedulerCode.Kernel.SemaUpWhole | thread/sync.c:29-46 | sema_up pops the first waiter, wakes it and increments, and gives the flag back |
| SchedulerCode.Kernel.ReturnFromSchedule | thread/thread.c:163-165 | what a thread does when it is switched back in is the resume step of the transition system |
| SchedulerCode.Kernel.LockInit | thread/sync.c:50-55 | a new lock is free, with value 1 and nesting 0 |
| SchedulerCode.AcquireStatement | thread/sync.c:58-73 | each interruptible statement of lock_acquire, on one PCB and one lock, does what the transition system says or fails its ASSERT |
| SchedulerCode.ReleaseStatement | thread/sync.c:76-92 | the same for each statement of lock_release |
| SchedulerCode.Kernel.LockAcquireStatement | thread/sync.c:58-73 | run by the current thread, it changes its PCB and that lock and nothing else in the kernel |
| SchedulerCode.Kernel.LockReleaseStatement | thread/sync.c:76-92 | the same for lock_release |
| SchedulerCode.Kernel.IntrEnable | kernel/interrupt.c:174-184 | the running thread's intr_enable switches the flag on, returns the former status and is the step of the transition system for it |
| SchedulerCode.Kernel.IntrDisable | kernel/interrupt.c:190-200 | the same for intr_disable |
| SchedulerCode.Kernel.IntrSetStatus | kernel/interrupt.c:165-168 | the same for intr_set_status |
| SchedulerCalls.AcquireOwn | thread/sync.c:58-73 | from every reachable state, lock_acquire of a lock the caller holds returns one level deeper, with the count raised, and changes nothing else |
| SchedulerCalls.AcquireFree | thread/sync.c:58-73 | lock_acquire of a free lock returns with the caller as holder, value 0, count 1 and the flag it was called with, and changes nothing else |
| SchedulerCalls.AcquireHeld | thread/sync.c:9-27 | lock_acquire of another thread's lock puts the caller asleep at the end of the waiters and runs the head of the ready list; it stops the machine exactly if the caller is among the waiters already or nobody is ready |
| SchedulerCalls.WaiterReturns | thread/sync.c:13-26 | a waiter that is switched in again gets the lock and the flag it called with if the value is 1; if it is 0 it sleeps again behind all other waiters, or stops the machine exactly as in the first turn |
| SchedulerCalls.ReleaseInner | thread/sync.c:76-84 | lock_release by a caller nested deeper than one returns one level less deep and changes nothing else |
| SchedulerCalls.ReleaseOuter | thread/sync.c:76-92 | lock_release by a caller nested once frees the lock (no holder, value 1, count 0); the first waiter is popped, made ready and put at the front of the ready list; nothing else changes; the machine stops exactly if that waiter is awake |
| SchedulerCalls.FlagCall | kernel/interrupt.c:165-200 | after a thread's own intr_enable or intr_disable the flag is as asked and the timer can interrupt exactly if it is on; nothing else changes |
| SchedulerCalls.YieldAlone | thread/thread.c:195-209 | thread_yield with nobody ready returns to the very state it was called in |
| SchedulerCalls.YieldGives | thread/thread.c:195-209 | with others ready it runs the head of the ready list and leaves the caller at its end |
| SchedulerCalls.BlockGives | thread/thread.c:152-166 | thread_block leaves the caller asleep with the status asked for and runs the head of the ready list, or stops the machine if there is none |
| SchedulerCalls.UnblockPushes | thread/thread.c:171-190 | thread_unblock of a sleeping thread returns with it ready at the front of the list and nothing else changed; of any other thread it stops the machine |
| SchedulerCalls.StartAppends | thread/thread.c:50-92 | thread_start leaves a new thread at the end of both lists, with priority and slice equal to the priority asked for cut to a byte |
| SchedulerCalls.GoesOn | thread/thread.c:19-25 | a thread switched in behind an interrupt, thread_block or thread_yield goes on where it was with the flag it had; a new one enters its function with interrupts on |
| SchedulerCalls.InitFrees | thread/sync.c:50-55 | lock_init leaves a free lock that nobody waits for, and changes no other |
| SchedulerCalls.TimerTicks | device/timer.c:36-49 | a timer interrupt counts one tick modulo 2^32 for the machine and for the running thread, which loses one tick of its slice, or with none left gets a full slice and goes to the end of the ready list while the head runs |
| SchedulerSteps.StepKept | thread/thread.c:116-209 | every step of every thread and of the timer keeps the invariant |
| SchedulerSteps.BootInv | thread/thread.c:214-226 | the boot state satisfies the invariant |
| SchedulerSteps.RunInv | thread/thread.c:116-209 | every state of every run from boot satisfies the invariant |
| SchedulerTheorems.MutualExclusion | thread/sync.c:58-92 | the number of threads between the decrement and the increment of a lock's semaphore is exactly 1 - value |
| SchedulerTheorems.HolderIsInsider | thread/sync.c:60-71 | whoever reads its own name in `holder` is the only thread inside, and holder_repeat_nr is its nesting depth |
| SchedulerTheorems.NestingLimit | thread/sync.c:69-92 | after any number n of further lock_acquire calls the counter equals the depth exactly if it fits 32 bits; the next lock_release fails its ASSERT exactly if the depth is a multiple of 2^32, and gives up a lock still held exactly if it is one more |
| SchedulerTheorems.NoLostWakeUp | thread/sync.c:9-46 | until thread_unblock takes a lock's waiter, a free lock with waiters has a thread, already popped, that can run and will test the value again |
| SchedulerTheorems.WaitersInOrder | thread/sync.c:19-38 | whatever callers of thread_unblock do, the threads popped so far followed by those waiting are the threads appended, in order |
| SchedulerTheorems.Partition | thread/thread.c:116-209 | until thread_unblock takes a lock's waiter, running thread, ready list, waiters of each lock and sleepers are disjoint, free of duplicates, and together all threads |
| SchedulerTheorems.ExactPanics | thread/thread.c:116-209 | whatever callers of thread_unblock do, only three ASSERTs can fire: that for an empty ready list, exactly when the only runnable thread goes to sleep; that on the status in thread_unblock, exactly when its thread is awake by then; and that of sema_down, exactly when a thread that has to wait is among the waiters already |
| SchedulerTheorems.PanicsBeforeTheft | thread/sync.c:13-40 | the one of sema_down, and the one of thread_unblock when sema_up calls it, can fire only behind a push of a thread that slept on a lock |
| SchedulerTheorems.NobodyElse | thread/thread.c:136 | right after boot a main thread that blocks stops the machine |
| SchedulerTheorems.StolenWaiter | thread/thread.c:177-187 | behind its ASSERT thread_unblock keeps the waiters of every lock the threads asleep on it if and only if its thread does not sleep on a lock; if it does, it is in the ready list and still among the waiters |
| WaiterTheft.TheftStops | thread/thread.c:171-190 | that happens: a run from boot with two threads and no timer interrupt in which main unblocks a thread that waits for main's lock; two steps later the ASSERT of sema_down stops the machine |
| SchedulerTheorems.CarefulRuns | thread/thread.c:171-190 | if thread_unblock is called only for threads that sleep in thread_block and that nobody else is unblocking, then whoever is being unblocked sleeps until his one waker wakes him, and no lock's waiter is ever taken |
| UnblockRace.CheckedCallStops | thread/thread.c:173-177 | without that rule a caller that has checked that the thread sleeps can still be stopped by the ASSERT: a run from boot with three threads |
| SchedulerTheorems.OnlyEmptyReadyPanics | thread/thread.c:116-209 | in every run that keeps to the rule no ASSERT can fire but the one for an empty ready list, which fires exactly when the only runnable thread goes to sleep |
| SchedulerTheorems.OwnFlagKept | kernel/interrupt.c:165-200 | no step changes the flag another thread will be given back |
| SchedulerTheorems.FlagGivenBack | kernel/interrupt.c:154-200 | whatever ran meanwhile, a thread that is out of schedule again, in its own code or still inside lock_acquire, has the interrupt flag it left with |
| SchedulerTheorems.SwitchedInWithFlagOff | thread/thread.c:118 | every thread just switched in finds interrupts off |
| SchedulerTheorems.TicksConserved | device/timer.c:42-48 | elapsed_ticks of all threads add up to ticks modulo 2^32, and no thread holds more than a full slice |
| RoundRobin.WaitBound | device/timer.c:45-48 | a thread at index k of the ready list waits at most 256 * (k + 1) timer interrupts |
| RoundRobin.NeverFarther | device/timer.c:45-48 | a timer interrupt shortens the wait of every ready thread by exactly one, and no step but a wake-up lengthens it |
| RoundRobin.PushWaits | thread/thread.c:186 | a wake-up, by sema_up or by thread_unblock, lengthens the wait of every ready thread by exactly the slice of the woken one |
| RoundRobin.WaitIsBound | device/timer.c:45-48 | in every run without wake-ups a ready thread gets the processor within its wait |
| RoundRobin.WaitIsExact | device/timer.c:36-49 | under timer interrupts alone, woken threads that take their lock included, it gets the processor on exactly that interrupt |
| Interrupts.Eflags.Disable | kernel/interrupt.c:190-200 | the flag is off afterwards and the former status is returned |
| Interrupts.Eflags.Enable | kernel/interrupt.c:174-184 | the flag is on afterwards and the former status is returned |
| Interrupts.Eflags.SetStatus | kernel/interrupt.c:165-168 | the flag is the given status and the former status is returned |
| ContextSwitch.Cpu.SwitchTo | thread/switch.S:4-23 | the registers go to the old stack and its PCB, and the new thread's come from its own |
| ContextSwitch.Cpu.ThreadCreate | thread/thread.c:29-44 | the first frame names the entry, the function and its argument, lies 432 bytes below the end of the page, and nothing outside the page is written |
| ContextSwitch.SavedWords | thread/switch.S:6-12 | a switched-out thread's registers lie below its return address in the order of struct thread_stack, and the stack pointer in the first word of its PCB |
| ContextSwitch.SavedElsewhere | thread/switch.S:6-12 | switch_to leaves the stack of every other thread alone |
| ContextSwitch.Away | thread/switch.S:4-23 | over any number of switches and computations a thread's stack stays as it left it |
| ContextSwitch.RoundTrip | thread/switch.S:4-23 | switched back in, a thread has its esi, edi, ebx, ebp, stack and return address |
| ContextSwitch.FirstSwitch | thread/thread.c:36-41 | the first switch to a thread enters the entry with function and argument where a C function looks for them |
| IntrusiveList.List.constructor | lib/kernel/list.c:5-11 | list_init makes an empty list |
| IntrusiveList.List.Empty | lib/kernel/list.c:15-18 | true exactly for the empty sequence |
| IntrusiveList.List.Len | lib/kernel/list.c:22-34 | the length of the sequence |
| IntrusiveList.List.InsertBefore | lib/kernel/list.c:38-50 | the element enters the sequence at that place, both chains agree, and the flag is given back |
| IntrusiveList.List.Push | lib/kernel/list.c:54-57 | prepends |
| IntrusiveList.List.Append | lib/kernel/list.c:61-64 | appends |
| IntrusiveList.List.Remove | lib/kernel/list.c:68-77 | deletes that element and keeps the others in order |
| IntrusiveList.List.Pop | lib/kernel/list.c:81-86 | returns the head and leaves the tail |
| IntrusiveList.List.Find | lib/kernel/list.c:90-102 | true exactly for members |
| IntrusiveList.List.Traversal | lib/kernel/list.c:105-120 | the first element the function accepts, or NULL when it accepts none |
| IntrusiveList.Unnoticed | lib/kernel/list.c:38-77 | a list none of whose nodes is written is still the same list |
| IntrusiveList.PopThenPush | thread/sync.c:37-39 | moving a tag from one list to another does both and leaves a third list alone |
| IntrusiveList.PushWithoutPop | thread/thread.c:186 | pushing a tag that is still in another list puts it in front of the ready list, into which the other list's chain now leads: the other is a list no more |
| Bitmap.BitMap.Init | lib/kernel/bitmap.c:4-7 | every bit of the map is clear and the byte behind it untouched |
| Bitmap.BitMap.Test | lib/kernel/bitmap.c:10-16 | the bit |
| Bitmap.BitMap.Set | lib/kernel/bitmap.c:64-75 | that bit and no other takes the value |
| Bitmap.BitMap.Scan | lib/kernel/bitmap.c:19-61 | the smallest start of a run of clear bits, or -1 exactly when there is none, looking one bit too far for runs longer than one; for a run of none, the bit behind the first used bit that follows a free one |
| Bitmap.SetBit | lib/kernel/bitmap.c:71-74 | the masks change one bit of a byte |
| Bitmap.BitOfMap | lib/kernel/bitmap.c:10-16 | bit i is bit i % 8 of byte i / 8, counted from the least significant |
| Bitmap.GuardDecides | lib/kernel/bitmap.c:40-58 | looking one bit too far is right exactly unless a clear guard bit completes a run the map does not hold; a set guard bit makes every search right |
| Bitmap.OverrunExample | lib/kernel/bitmap.c:40-58 | three bits for which it is wrong |
| PoolLayout.PoolsFitExactly | kernel/memory.c:9-23 | the pools lie side by side between the boot tables and the end of memory exactly when there are at least 2 MB |
| PoolLayout.PoolsHalve | kernel/memory.c:9-38 | the pools differ by at most one page and share all free pages, as many as 16 bits count, from 2 MB on; each bitmap has a byte for every eight whole pages, the heap as many as the kernel pool |
| PoolLayout.BitsStayInPool | kernel/memory.c:19-38 | every bit stands for an aligned frame inside its own pool |
| PoolLayout.BitmapsFit | kernel/memory.c:28-56 | the three bitmaps follow one another and end below main's PCB, and the heap below the self-map |
| Paging.PtePtrReachesPte | kernel/memory.c:132-138 | walking pte_ptr(v) leads to the physical word of v's page-table entry |
| Paging.PdePtrReachesPde | kernel/memory.c:142-147 | walking pde_ptr(v) leads to the word of v's directory entry |
| Paging.PdePtrIsPtePtrTwice | kernel/memory.c:132-147 | pde_ptr is pte_ptr applied twice |
| Paging.AddrV2PIsWalk | kernel/memory.c:290-294 | addr_v2p agrees with the hardware walk for every mapped address |
| MemoryInvariants.MapHeapKept | kernel/memory.c:161-167 | giving a fresh heap page a free frame keeps the books |
| MemoryInvariants.AddTableKept | kernel/memory.c:170-172 | giving a user directory entry an empty page table keeps the books |
| MemoryInvariants.MapUserKept | kernel/memory.c:161-174 | giving a fresh user page a free frame keeps the books |
| MemorySafety.TranslationsKept | kernel/memory.c:153-176 | an operation that changes no present entry changes no translation |
| MemorySafety.HeapWalk | boot/loader.s:265-277 | every directory translates a heap page through the same entry of the same boot table |
| MemorySafety.MapOneHeap | kernel/memory.c:161-167 | a fresh heap page never needs a new page table and is never found present |
| MemorySafety.MapHeapPages | kernel/memory.c:198-207 | the loop over heap pages never stops; it maps all of them to distinct free frames if the pool has enough, and otherwise as many as the pool has |
| MemorySafety.MapOneUser | kernel/memory.c:198-207 | a fresh user page is mapped, with a new page table exactly if its directory entry is absent; it fails exactly without a user frame, and stops exactly if a table is needed and no kernel frame is left |
| MemorySafety.MapUserPages | kernel/memory.c:198-207 | the loop over user pages, from the state before it: which pages it maps, and exactly when it runs out of user frames, finds a page mapped already, or needs more page tables than the kernel pool has frames |
| MemoryModel.FirstFree | kernel/memory.c:116-128 | palloc takes the lowest free frame of the pool, and there is none only if every bit is set |
| MemoryModel.FirstRoom | kernel/memory.c:75-84 | vaddr_get takes the lowest room, and fails only if there is no room; a search for several pages looks one bit too far |
| PageAccess.MapOneMaps | kernel/memory.c:153-176 | a turn of malloc_page's loop that goes on translates its address to the pool's first free frame, by an entry that is the frame plus 7 |
| PageAccess.PresentEntries | kernel/memory.c:161-174 | in every run every present entry of every directory and page table is a frame plus the flags 7 |
| PageAccess.OpenToPrograms | kernel/memory.c:161-174 | in every run every translated address, the kernel's included, may be read and written in user mode: U/S and R/W are set in both entries |
| MemoryAllocation.MallocKernel | kernel/memory.c:185-210 | malloc_page for the kernel succeeds exactly if there are room and frames enough, keeps all addresses and maps a prefix if frames run out, and stops exactly on its count ASSERT; the books stay right |
| MemoryAllocation.MallocUser | kernel/memory.c:185-210 | the same for a process, with the exact condition of each ASSERT and of the unchecked palloc, whether its own or the boot directory is active |
| MemoryAllocation.NoPool | kernel/memory.c:88-94 | a thread without an address pool, whose bitmap pointer is NULL, gets NULL while the boot directory is active, and a page fault exactly if address 0 is not mapped |
| MemoryAllocation.MallocUserOwn | kernel/memory.c:185-210 | in its own directory: with addresses found, malloc_page stops exactly if the absent directory entries under the pages that user frames exist for outnumber the free kernel frames, and otherwise succeeds exactly if user frames suffice |
| MemoryExhaustion.TablesRunOut | kernel/memory.c:170 | from an untouched machine some run leads to a consistent state with free user frames in which the first page a process asks for stops the machine |
| MemoryExhaustion.BootsUntouched | kernel/memory.c:9-56 | every machine with frames for both pools and at most 32 MB boots untouched |
| MemoryAllocation.GetAPageKernel | kernel/memory.c:248-285 | get_a_page for a kernel thread returns the address asked for, with that bit of the heap set; it stops exactly when the page is mapped already and a frame is left |
| MemoryAllocation.GetAPageUser | kernel/memory.c:248-285 | get_a_page for a process returns the address asked for, with that bit of its pool set; exactly when it fails, stops because the active directory maps the page already, or stops for want of a page-table frame |
| MemoryAllocation.PoolIndex | kernel/memory.c:257-269 | the index get_a_page computes is in range exactly for addresses of the pool's pages but the first, on which it stops; it is then the page's number |
| MemoryModel.WrongPage | kernel/memory.c:259-272 | get_a_page stops for a process asking for a kernel page, a kernel thread asking for a user page, and a process without an address pool |
| MemoryRuns.CreateDirKept | userprog/process.c:63-83 | a new directory is a frame no directory or page had, and its address translates to it |
| MemoryRuns.ActivateIs | userprog/process.c:34-42 | addr_v2p of a process's pgdir is its directory, whichever directory is active |
| MemoryRuns.ActivateBoot | userprog/process.c:34-42 | for a thread without a directory it is 0x100000 |
| MemoryRuns.ExecKept | kernel/memory.c:67-285 | every memory operation that comes back keeps the books and every present entry |
| MemoryTheorems.RunInv | kernel/memory.c:67-285 | the books are right in every state of every run |
| MemoryTheorems.TranslationsLast | kernel/memory.c:153-176 | once an address space translates an address, it translates it the same ever after |
| MemoryTheorems.KernelHalfShared | boot/loader.s:265-277 | in every run all directories ever made translate every kernel address alike |
| MemoryTheorems.ReferencedFramesAreUsed | kernel/memory.c:116-128 | no frame a present entry refers to is ever marked free |
| MemoryTheorems.KernelFramesConserved | kernel/memory.c:67-210 | in every run the used bits of kernel_pool are as many as the heap pages mapped and the page tables in use |
| MemoryTheorems.UserFramesConserved | kernel/memory.c:67-210 | in every run the used bits of user_pool are as many as the user pages mapped in all address spaces |
| MemoryTheorems.UserFramesAreNotShared | kernel/memory.c:116-176 | two user addresses lie in one frame only if they are in one page of one process |
| MemoryTheorems.HeapFramesAreNotShared | kernel/memory.c:116-176 | heap pages share frames neither with each other nor with user pages |
| MemoryTheorems.KernelPagesAreFresh | kernel/memory.c:185-210 | a successful malloc_page for the kernel maps unmapped pages to distinct frames that were free, in every address space |
| MemoryTheorems.UserPagesAreFresh | kernel/memory.c:185-210 | the same for a process, in the directory that is active, its own or the boot directory: the pages were not mapped there and get distinct frames that were free |
| MemoryTheorems.PageGoesToActive | kernel/memory.c:259-281 | get_a_page by a process returns the address asked for and maps the page in the directory that is active, which did not map it |
| MemoryTheorems.OwnDirectoryUnchanged | kernel/memory.c:259-281 | when that is the boot directory, the process's own directory still does not translate the page |
| MemoryTheorems.SamePageOnlyOnce | userprog/process.c:25 | so, in every run in which no process directory is activated, only the first process gets its stack page; every later call stops at the ASSERT of page_table_add or finds no user frame |
| MemoryCode.Region.Palloc | kernel/memory.c:116-128 | takes the first free frame, or returns NULL and changes nothing |
| MemoryCode.Region.TakeRun | kernel/memory.c:75-84 | the search and the loop set exactly the bits of the first room |
| MemoryCode.Machine.constructor | kernel/memory.c:5-60 | the machine starts with the boot directory active and nothing taken |
| MemoryCode.Machine.VaddrGet | kernel/memory.c:67-109 | the code does what the specification of vaddr_get says, with the pool of the running thread, and for a thread that has none |
| MemoryCode.Machine.PageTableAdd | kernel/memory.c:153-176 | stores through the self-map make exactly the specified state, in both branches; the ASSERT after clearing a new table cannot fire |
| MemoryCode.Machine.ClearTable | kernel/memory.c:172 | memset through the self-map clears exactly the new table's frame |
| MemoryCode.Machine.MallocPage | kernel/memory.c:185-210 | the code does what the specification of malloc_page says, and unless it stops keeps the books and every translation |
| MemoryCode.Machine.MapLoop | kernel/memory.c:198-207 | the loop does what the specification says, for either pool |
| MemoryCode.Machine.GetAPage | kernel/memory.c:248-285 | the same for get_a_page, which tests the running thread's pgdir, maps in the active directory and returns the address asked for |
| MemoryCode.Machine.AddrV2p | kernel/memory.c:290-294 | for a mapped address the code returns what the hardware walk yields |
| MemoryCode.Machine.FillDir | userprog/process.c:72-80 | memset, memcpy and the last store make a directory that shares the kernel half and maps itself |
| MemoryCode.Machine.CreatePageDir | userprog/process.c:63-83 | the code does what the specification of create_page_dir says, never stops, and keeps the books and every translation |
| MemoryCode.Machine.PageDirActivate | userprog/process.c:34-42 | cr3 gets the process's directory, or 0x100000 for a kernel thread; the books stay right |
| MemoryCode.Machine.RunThread | thread/thread.c:141-144 | schedule changes the running thread and not the active directory; the books stay right |
| MemoryBoot.ClearDirectory | boot/loader.s:233-238 | the byte loop clears the directory and nothing else |
| MemoryBoot.SetupPage | boot/loader.s:231-279 | the directory maps itself and 255 kernel tables, the first of them twice; that table maps the first megabyte to itself; the entries are the words 0x101007, 0x102007 and so on |
| MemoryBoot.MemPoolInit | kernel/memory.c:5-60 | the pools have the computed places and sizes and nothing is taken |
| MemoryBoot.BootInv | boot/loader.s:231-279 | these page tables and pools satisfy the invariant, for every page-aligned size of at least 2 MB |
| MemoryBoot.Boot | kernel/memory.c:297-303 | the machine that boots satisfies the invariant, with nothing taken: its books are those that `TablesRunOut` starts from |
| Console.PutChar | lib/kernel/print.S:41-153 | faults exactly for a backspace at cell 0, and keeps the cursor below 2000 |
| Console.SomePaper | lib/kernel/print.S:43-64 | whatever is on the screen is a window onto some paper, so the refinement starts anywhere |
| Console.PutCharShows | lib/kernel/print.S:41-153 | every character keeps the screen a window onto the paper, whose cells are the character and the attribute 7, and which moves by at most one row |
| Console.PutStrShows | lib/kernel/print.S:17-35 | after any string the screen is the window that follows the pen over the paper the string is simply written on |
| Console.PlainTextWritten | lib/kernel/print.S:91-97 | text without control characters lies cell after cell from where the pen was, each character in the low byte below the attribute 7; no other cell changes |
| Console.PlainTextCells | lib/kernel/print.S:91-99 | text that fits behind the cursor lies on the screen the same way, and no other cell changes |
| Console.PlainTextShown | lib/kernel/print.S:91-97 | plain text never faults |
| Console.HexTextReadsBack | lib/kernel/print.S:160-217 | the text of a number reads back as the number, is upper-case hex, and begins with '0' only for zero |
| Console.PaddedText | lib/kernel/print.S:170-204 | the buffer of any size holds zeros and then the text |
| Console.EightDigits | lib/kernel/print.S:166 | eight digits hold exactly the 32-bit numbers |
| ConsoleCode.Terminal.RollScreen | lib/kernel/print.S:118-131 | 960 double words move up and 80 blank words follow: rows 1 to 24 move up and the last is blank |
| ConsoleCode.Terminal.NextLine | lib/kernel/print.S:101-132 | the cursor goes to the next row, scrolling at the end |
| ConsoleCode.Terminal.PutChar | lib/kernel/print.S:41-153 | the code, with its byte stores and 16-bit offsets, shows what the specification says; a plain character goes to the byte at twice the cursor and 7 to the next |
| ConsoleCode.Terminal.PutStr | lib/kernel/print.S:17-35 | the loop shows the characters before the zero byte |
| ConsoleCode.FillBuffer | lib/kernel/print.S:169-188 | the digit loop fills the buffer, for any number of digits |
| ConsoleCode.SkipZeros | lib/kernel/print.S:190-207 | the prefix loop finds the first digit of the text, or a single '0' |
| ConsoleCode.Terminal.PutInt | lib/kernel/print.S:160-217 | put_int shows the text of the number, each digit in its cell |

## Left out

- SchedulerCode.Kernel.ThreadStart: thread creation is one step and the PCB page is given; `get_kernel_pages` and the interleavings inside `thread_start` are not part of this model.
- SchedulerCode.Kernel.Schedule: the queues are sequences of addresses here; that linked nodes implement them is proved in `IntrusiveList`. PCBs and locks are objects found by address; the context switch itself is `ContextSwitch`.
- SchedulerTheorems.NoLostWakeUp: says nothing behind a push of a lock's waiter by `thread_unblock` (`stolen`).
- SchedulerTheorems.Partition: the same; behind such a push the thread is in two queues.
- SchedulerTheorems.ExactPanics: behind such a push it speaks of queues that are sequences and both hold the thread; the linked queues share its tag, so that the chain of the waiters leads into the ready list (`IntrusiveList.PushWithoutPop`), and what the code does with it later is not part of this model.
- SchedulerCode.Kernel.LockInit: `waiters` starts empty although `sema_init` does not initialise it.
- SchedulerCode.Kernel.TimerHandler: `stack_magic` is never overwritten, because stacks are taken to stay inside their pages.
- SchedulerTheorems.OnlyEmptyReadyPanics: speaks of runs that keep to the rule for `thread_unblock`; `ExactPanics` gives the conditions for all runs.
- MemorySafety.MapUserPages: what the code does after the unchecked `palloc` fails is not modelled; the run stops.
- MemoryCode.Machine.PageTableAdd: the same; the code goes on with frame 0 as a page table.
- MemoryCode.Machine.GetAPage: the lock that a failing call leaves held (`kernel/memory.c:276-278`) is not modelled; a bit outside the address pool stops the run instead of changing foreign memory.
- MemoryCode.Machine.MallocPage: frame addresses are page-aligned, so the flags are added instead of or-ed.
- `get_kernel_pages` and `get_user_pages`: their locks and the clearing of new pages (a NULL result included, `kernel/memory.c:237-238`) are not modelled; stores to new pages are stores of programs in `MemoryRuns`.
- Liveness with `thread_unblock` allowed: a woken thread goes to the front of the ready list, so only bounded waiting without wake-ups is claimed.
- Atomicity of user-pool against kernel-pool allocation: the code does not provide it; memory operations are sequential here.
- The translation look-aside buffer: every access walks the tables.
- `TASK_WAITING`, `TASK_HANGING` and `TASK_DIED` beyond `thread_block` and `thread_unblock`: no caller uses them.
- `start_process`, the TSS, the descriptor encoders, `kernel.S`, ports, PIC and PIT, the disk and ELF loaders, `device/ide.c`, `device/keyboard.c`, `device/console.c` and `lib/string.c`: plumbing, encoders, wrappers and unfinished drivers.
