# Neox, modelled and proved

Neox is a 32-bit kernel for one processor. This project models three parts of it in Dafny and proves
what they are relied on for. `dafny verify dfyconfig.toml` checks all of it.

**Tasks** (`kernel/task/`, `kernel/lib/list.c`). `TaskState` says what each interrupts-off section does
to the kernel's memory; `TaskKernel` is the code statement by statement, as a class whose methods are
proved to do just that, with a log of the memory at every point where interrupts come on. `TaskSystem`
interleaves the sections: a timer tick, or any other thread's step, may come between two of them, and
each thread has a program counter. `TaskInvariant` is the inductive invariant, with the window between
the change of a mutex's owner and the unblocking of the new owner as an explicit "handoff in flight";
`TaskProofs`, `TaskSteps`, `TaskMutexSteps`, `TaskLifeSteps` and `TaskRuns` show that every event of
every run keeps it. `TaskTheorems`, `TaskQueues`, `TaskFairness`, `TaskLifecycle` and `TaskEffects` draw the conclusions:
mutual exclusion, arrival order, no lost wakeup, a starvation bound, conservation of semaphore counts, thread
and process lifetimes, and that the `ASSERT`s about thread and list states hold. `List` proves the intrusive list on real pointers.

**Memory** (`kernel/mm/`). `Bitmap` and `Pmm` refine a set of frames from bits in bytes; `PageTables` and
`Paging` refine a flat map from pages to mappings from words in frames; `AddressSpace` follows the
frames that an address space holds, `AddressSpaceLife` over whole runs and lives; `Vmm` is multi-page
allocation with rollback; `HeapTiles` and `Heap` refine a tiling from linked block headers; `Vam` hands
out virtual ranges and stack slots.

**Programs and files.** `ElfImage`, `ElfFormat`, `ElfPlan` and `ElfLoader` are the loader over `Paging`; `Bytes`,
`FsFormat`, `Mkfs`, `Fs`, `File` and `FsRoundTrip` are the file system image, written and read back.

## Where the code does less than it suggests

Each of these is stated with the exact condition under which the code does meet the property, or with a
run on which it does not.

- A sleeping reaper may have zombies to free, although the comment at kernel/task/reaper.c:36-40 reads as if the
  sleep ended with the next termination. `TaskCounterexamples.ReaperMissReachable` is a run that gets there;
  `TaskLifecycle.ReaperMissesOnlyBySleeping` says that it happens exactly when the reaper goes to sleep while the
  zombie list is not empty.
- `semaphore_release` restores interrupts if and only if nobody waits (`KernelTasks.SemaphoreRelease`).
- `elf_load` puts the right bytes at the right addresses if and only if `p_vaddr` is page-aligned or there is
  nothing to copy (`ElfImage.CopyIsRightIffAligned`).
- `elf_load` maps a page for a PT_LOAD segment without bytes if and only if it starts inside a page
  (`ElfPlan.PagesOfSegment`); such a page is all zero.
- `vmm_alloc_pages` loses a frame exactly when a page needs a new table and the frame just taken for the page was the
  last (`Vmm.MapPages`, `Vmm.LossHappens`).
- A failed `fs_mount` keeps the old image if and only if the new one is shorter than a superblock, or the same
  (`FileSystem.Mount`).
- The memory map is rounded the right way if and only if regions start on a page, up to a small slack
  (`Pmm.ClearedAreInside`, `Pmm.ReservedAreKept`).
- `pmm_free_page` frees a reserved page if asked to (`Pmm.FreePage`).

## Model

| member | source | states |
|---|---|---|
| TaskKernel.KernelTasks.InterruptSave | kernel/arch/x86/arch.c:12-26 | the old interrupt flag is returned and interrupts are off |
| TaskKernel.KernelTasks.InterruptRestore | kernel/arch/x86/arch.c:28-37 | the flag is as saved; if interrupts come on, that is the one point where another thread may see the memory |
| TaskKernel.KernelTasks.SchedulerAdd | kernel/task/scheduler.c:71-83 | a thread joins the tail of the ready list, NULL is ignored |
| TaskKernel.KernelTasks.SchedulerRemove | kernel/task/scheduler.c:85-102 | a linked thread leaves the ready list from wherever it is, an unlinked one is ignored |
| TaskKernel.KernelTasks.SchedulerNext | kernel/task/scheduler.c:109-178 | the next thread round the circle runs, the front if the outgoing one is not linked, the idle thread if nobody is ready; only a running non-idle thread is demoted |
| TaskKernel.KernelTasks.SchedulerSwitch | kernel/task/scheduler.c:186-239 | one selection and a full quantum, whether or not the thread changes |
| TaskKernel.KernelTasks.SchedulerTick | kernel/task/scheduler.c:380-390 | the quantum counts down, wrapping as a uint32_t, and a switch happens exactly when it reaches 0 |
| TaskKernel.KernelTasks.SchedulerYield | kernel/task/scheduler.c:392-400 | a switch once scheduling has started |
| TaskKernel.KernelTasks.SchedulerNextZombie | kernel/task/scheduler.c:402-413 | the oldest zombie is unlinked and returned, NULL from an empty list |
| TaskKernel.KernelTasks.SchedulerPushZombie | kernel/task/scheduler.c:427-442 | the thread becomes the last zombie and the reaper is woken if it sleeps |
| TaskKernel.KernelTasks.SchedulerTerminate | kernel/task/scheduler.c:444-470 | the current thread is terminated and unlinked, all joiners become ready, a detached thread becomes a zombie |
| TaskKernel.KernelTasks.WaitQueueAdd | kernel/task/wait.c:18-33 | the thread is last in the queue and its back pointer names the queue |
| TaskKernel.KernelTasks.WaitQueueRemove | kernel/task/wait.c:35-61 | the oldest waiter leaves and its back pointer is cleared, NULL from an empty queue |
| TaskKernel.KernelTasks.WaitQueueWake | kernel/task/wait.c:63-76 | the oldest waiter, if any, becomes ready, with no window in between |
| TaskKernel.KernelTasks.WaitQueueWakeAll | kernel/task/wait.c:78-87 | the drain loop ends, empties the queue and makes all its threads ready in their order, with no window in between |
| TaskKernel.KernelTasks.WaitQueueSleep | kernel/task/wait.c:89-107 | enqueue, block, unlink and switch happen in one interrupts-off section |
| TaskKernel.KernelTasks.ThreadAdd | kernel/task/thread.c:53-61 | the thread joins its process and the ready list |
| TaskKernel.KernelTasks.ThreadBlock | kernel/task/thread.c:62-77 | the current thread is blocked and unlinked, and another is selected |
| TaskKernel.KernelTasks.ThreadUnblock | kernel/task/thread.c:79-93 | the thread is ready at the tail of the list, and interrupts are as before |
| TaskKernel.KernelTasks.ThreadDestroy | kernel/task/thread.c:290-414 | a terminated thread is unlinked from its process and no longer exists |
| TaskKernel.KernelTasks.ThreadJoin | kernel/task/thread.c:416-448 | sleeps exactly when the thread has not terminated; otherwise frees it, and its process when it was the last thread |
| TaskKernel.KernelTasks.ThreadJoinResume | kernel/task/thread.c:427-447 | once woken, the joiner frees the thread and its emptied process |
| TaskKernel.KernelTasks.ThreadDetach | kernel/task/thread.c:450-470 | the thread is detached, and a zombie at once if it had terminated |
| TaskKernel.KernelTasks.ThreadYield | kernel/task/thread.c:472-484 | a switch, and nothing before scheduling has started |
| TaskKernel.KernelTasks.ThreadKillCurrent | kernel/task/thread.c:486-501 | the current thread terminates and another is selected, with no window in between |
| TaskKernel.KernelTasks.ProcessDestroy | kernel/task/process.c:125-143 | an empty process leaves the process list |
| TaskKernel.KernelTasks.DestroyWithProcess | kernel/task/thread.c:436-443 | a thread is freed together with the process that it leaves empty |
| TaskKernel.KernelTasks.MutexLock | kernel/task/mutex.c:16-32 | a free mutex becomes the caller's; an owned one puts the caller at the end of the queue, asleep |
| TaskKernel.KernelTasks.MutexUnlock | kernel/task/mutex.c:34-54 | ownership passes to the oldest waiter, and without one the mutex has no owner; exactly when interrupts were on, there is a window between the change of owner and the unblocking |
| TaskKernel.KernelTasks.CondvarWait | kernel/task/condvar.c:50-74 | releasing the mutex and enqueueing are one section: no window separates them |
| TaskKernel.KernelTasks.CondvarWaitResume | kernel/task/condvar.c:76-91 | a woken waiter opens one window and then locks the mutex like anyone else |
| TaskKernel.KernelTasks.CondvarSignal | kernel/task/condvar.c:101-110 | the oldest waiter, if any, becomes ready |
| TaskKernel.KernelTasks.CondvarBroadcast | kernel/task/condvar.c:120-129 | all waiters become ready in their order |
| TaskKernel.KernelTasks.SemaphoreAcquire | kernel/task/semaphore.c:16-32 | a positive count is decremented, at zero the caller sleeps at the end of the queue |
| TaskKernel.KernelTasks.SemaphoreRelease | kernel/task/semaphore.c:34-53 | the oldest waiter is admitted and the count stays, or the count grows as a uint32_t; interrupts are restored exactly when nobody waited |
| TaskKernel.KernelTasks.ReaperDrain | kernel/task/reaper.c:52-77 | the inner loop ends, frees all zombies and every process they leave empty, and leaves the list empty, in one section |
| TaskRuns.InitialInv | kernel/task/reaper.c:81-108 | the state after boot satisfies the invariant |
| TaskRuns.EventKeepsInv | kernel/task/scheduler.c:71-470 | every section that any thread may run in any state that satisfies the invariant keeps it |
| TaskRuns.RunKeepsInv | kernel/task/scheduler.c:71-470 | so does every run, whatever the interleaving |
| TaskTheorems.ReadyListIsExact | kernel/task/scheduler.c:71-102 | in every reachable state the ready list holds exactly the added non-idle threads that are READY or RUNNING, once each; the quantum is 1 to 5 |
| TaskTheorems.OnlyCurrentRuns | kernel/task/scheduler.c:146-175 | a non-idle thread is RUNNING if and only if it is `current` |
| TaskTheorems.InAtMostOneQueue | kernel/task/wait.c:18-61 | a waiter is in one wait queue only, once, the one its back pointer names, and is blocked and not ready |
| TaskTheorems.BlockedForOneReason | kernel/task/mutex.c:41-49 | a blocked thread is queued, or blocked itself, or is the target of exactly one handoff in flight, and only one of these |
| TaskTheorems.TerminatedIsNowhere | kernel/task/scheduler.c:455-463 | a terminated thread is in no ready list and no queue, and nobody waits for it |
| TaskTheorems.MutualExclusion | kernel/task/mutex.c:16-54 | at most one thread is past mutex_lock and not yet past mutex_unlock, unblocking included |
| TaskTheorems.WaitersHaveOwner | kernel/task/mutex.c:34-54 | a queue with waiters has an owner, and a thread woken in mutex_lock already is the owner |
| TaskTheorems.OwnerHolds | kernel/task/mutex.c:16-32 | the owner, when it runs outside the kernel, is inside its critical section |
| TaskTheorems.UnlockGrants | kernel/task/mutex.c:41-47 | an unlock makes the first waiter the owner and takes it, only it, off the queue |
| TaskEffects.UnlockFrees | kernel/task/mutex.c:41-53 | an unlock that finds nobody waiting leaves the mutex without an owner |
| TaskEffects.FreeMutexEntered | kernel/task/mutex.c:22-27 | locking a mutex without an owner enters the critical section at once: no switch, no queue, no other thread's state changes |
| TaskEffects.FreeUntilLocked | kernel/task/mutex.c:16-54 | a free mutex stays free over every run until somebody locks it |
| TaskEffects.OwnerAfter | kernel/task/mutex.c:16-54 | in any event the owner of a mutex changes only by being handed on to the first waiter, freed, or taken when free |
| TaskEffects.OwnersAreThreads | kernel/task/mutex.c:16-54 | every owner is a thread that was created, never the idle thread |
| TaskTheorems.GrantedInArrivalOrder | kernel/task/mutex.c:16-54 | the k-th waiter stays in line through k unlocks and becomes the owner with the next, over every run |
| TaskTheorems.WaiterIsQueued | kernel/task/condvar.c:57-74 | no reachable state has a waiter that released the mutex but is not enqueued |
| TaskTheorems.SleepersStay | kernel/task/wait.c:89-107 | a thread that no event takes off its queue stays in its call, over every run |
| TaskTheorems.WaitEndsBySignal | kernel/task/condvar.c:50-129 | condvar_wait comes to an end only through a signal or broadcast on that variable that took this thread off the queue |
| TaskTheorems.SignalTakesOldest | kernel/task/condvar.c:101-129 | a signal moves exactly the oldest waiter to the end of the ready list, a broadcast all in their order |
| TaskTheorems.WaitReturnsHolding | kernel/task/condvar.c:76-91 | condvar_wait returns only as the owner of the mutex |
| TaskQueues.QueueStep | kernel/task/wait.c:18-87 | in one event the departing leave a queue from the front and the arriving join at the back |
| TaskQueues.QueueConservation | kernel/task/wait.c:18-107 | over every run, what a queue held and what joined it is what left it and what it holds, in that order |
| TaskQueues.KthToLeave | kernel/task/semaphore.c:16-53 | the k-th waiter of any queue, semaphores included, is the k-th to leave |
| TaskFairness.RankBoundsWait | kernel/task/scheduler.c:109-178 | a measure of position that falls with every selection bounds the wait of a ready thread |
| TaskFairness.RoundRobin | kernel/task/scheduler.c:157-175 | a switch selects the thread behind the current one in the ready list, the first after the last |
| TaskFairness.RestartsAtFront | kernel/task/scheduler.c:119-165 | a switch from a thread that is not linked selects the first of the list, and the idle thread when the list is empty |
| TaskFairness.SelectedWithin | kernel/task/scheduler.c:109-178 | with at most n threads alive, a ready thread with b ahead of it is selected within n + b(b + 1)/2 selections, whatever the others do |
| TaskFairness.TicksForceSelections | kernel/task/scheduler.c:380-390 | five ticks never pass without a selection |
| TaskFairness.SelectedInTime | kernel/task/scheduler.c:380-390 | so the thread runs within 5(n + b(b + 1)/2) ticks |
| TaskLifecycle.SemaphoreConservation | kernel/task/semaphore.c:6-53 | initial count and releases equal the count and the admitted acquires, over every run |
| TaskLifecycle.PositiveCountMeansNoWaiters | kernel/task/semaphore.c:16-53 | the count is positive only when nobody waits |
| TaskLifecycle.ZombieListIsExact | kernel/task/scheduler.c:427-470 | the zombie list holds exactly the terminated, detached threads not yet freed, once each |
| TaskLifecycle.JoinReturnsAfterTermination | kernel/task/thread.c:416-448 | thread_join returns only after termination, of a thread that still exists, is not `current` and is freed by it |
| TaskLifecycle.DrainEmptiesList | kernel/task/reaper.c:52-77 | a woken reaper frees exactly the zombies, never itself, and leaves no zombie |
| TaskLifecycle.OnlyDueThreadsFreed | kernel/task/thread.c:290-448 | a thread is freed by the one join or drain that is due and never while it is `current`, ready or queued |
| TaskLifecycle.FreedOnce | kernel/task/thread.c:290-448 | a freed thread never comes back, so none is destroyed twice |
| TaskEffects.DetachedAfter | kernel/task/thread.c:450-470 | thread_detach marks any thread, running or not, and only its destruction takes the mark away; no other event marks one |
| TaskEffects.BlockLasts | kernel/task/thread.c:62-77 | a thread that blocked itself neither runs nor is ready, over every run, before somebody unblocks it by name |
| TaskEffects.UnblockReadies | kernel/task/thread.c:79-93 | the unblocked thread is READY and the last of the ready ones |
| TaskEffects.ThreadCreated | kernel/task/thread.c:95-288 | a new thread is READY and in its process but in no list, so it cannot run before it is added |
| TaskEffects.ThreadAdded | kernel/task/thread.c:53-61 | an added thread is the last of the ready ones and a member of its process |
| TaskEffects.ProcessCreated | kernel/task/process.c:84-123 | a new process is listed and nothing else changes |
| TaskLifecycle.ProcessLivesWithThreads | kernel/task/thread.c:436-443 | a process to which a thread was added exists exactly as long as one of its added threads |
| TaskLifecycle.ProcessDiesWithLastThread | kernel/task/reaper.c:69-73 | an event destroys a process exactly when it frees its last added thread |
| TaskLifecycle.ReaperMissesOnlyBySleeping | kernel/task/reaper.c:41-77 | "a sleeping reaper has no zombies" becomes false exactly by going to sleep over a nonempty list |
| TaskLifecycle.NoAssertFails | kernel/task/thread.c:79-470 | no ASSERT about thread states, list membership, owners, joining, detaching or the reaper fails in any run whose callers keep the contracts |
| TaskLifecycle.SelectedCanRun | kernel/task/thread.c:486-501 | what is selected exists, runs and has not terminated: "terminated thread resumed" is not reached |
| TaskCounterexamples.ReaperMissReachable | kernel/task/reaper.c:41-77 | a run from boot ends with the reaper asleep over a zombie |
| List.List.constructor | kernel/lib/list.c:44-50 | an initialised list is empty |
| List.List.InsertBefore | kernel/lib/list.c:60-77 | insertion into the sequence before any position, the sentinel included; links stay inverse |
| List.List.InsertAfter | kernel/lib/list.c:79-96 | insertion into the sequence behind any position |
| List.List.PushFront | kernel/lib/list.c:98-105 | the node comes first |
| List.List.PushBack | kernel/lib/list.c:107-114 | the node comes last |
| List.List.Remove | kernel/lib/list.c:116-135 | deletion from the sequence at any position, and both pointers of the node are NULL |
| List.List.Empty | kernel/lib/list.c:52-58 | true exactly for the empty sequence |
| List.List.Front | kernel/lib/list.c:4-10 | the first node, or the sentinel |
| List.List.Back | kernel/lib/list.c:12-18 | the last node, or the sentinel |
| List.InsertBeforeAmong | kernel/lib/list.c:60-77 | all other lists are unchanged, and a node is in no list if and only if both its pointers are NULL |
| List.RemoveAmong | kernel/lib/list.c:116-135 | the same for removal |
| Bitmap.MaskBits | kernel/mm/pmm.c:24-37 | setting and clearing one bit of a byte by masks changes that bit only |
| Bitmap.Bitmap.Set | kernel/mm/pmm.c:24-27 | the page joins the set of used pages |
| Bitmap.Bitmap.Clear | kernel/mm/pmm.c:29-32 | the page leaves it |
| Bitmap.Bitmap.Test | kernel/mm/pmm.c:34-37 | membership |
| Bitmap.Bitmap.SetRange | kernel/mm/vam.c:155-161 | the run of pages joins the set |
| Bitmap.Bitmap.ClearRange | kernel/mm/vam.c:163-169 | the run leaves it |
| Bitmap.Bitmap.RangeFree | kernel/mm/vam.c:171-182 | true exactly when no page of the run is used |
| Pmm.ClearedAreInside | kernel/mm/pmm.c:39-50 | only whole available pages are freed if and only if the region starts on a page (or holds none) |
| Pmm.ReservedAreKept | kernel/mm/pmm.c:52-63 | every page of a reserved region is kept if and only if its two ends do not carry into one page more |
| Pmm.InsideAreCleared | kernel/mm/pmm.c:39-50 | no whole available page is missed if and only if the ends of the region do not carry |
| Pmm.ReservedMeet | kernel/mm/pmm.c:52-63 | no page is reserved for a region that it does not meet |
| Pmm.ClearedByAny | kernel/mm/pmm.c:156-167 | a page is freed exactly when some available region of the map frees it |
| Pmm.SetByAny | kernel/mm/pmm.c:169-192 | a page is kept exactly when some region to keep holds it |
| Pmm.ClearAvailable | kernel/mm/pmm.c:156-167 | the second pass over the memory map frees the pages of the available regions |
| Pmm.Pmm.constructor | kernel/mm/pmm.c:156-200 | afterwards the free pages are the available ones but for the low megabyte and the kept regions, and free_pages counts them |
| Pmm.Pmm.AllocPage | kernel/mm/pmm.c:202-231 | the lowest free page, never a reserved one; 0 exactly when none is free or the test hook says so |
| Pmm.Pmm.FreePage | kernel/mm/pmm.c:233-258 | the page is free afterwards; a second free, or a page beyond the end, changes nothing; free_pages keeps count |
| Pmm.Pmm.FailNextAllocations | kernel/mm/pmm.c:275-278 | the hook is set and nothing else changes |
| PageTables.WriteEntryKeeps | kernel/mm/paging.c:257-258 | writing a word of a table is an update or a deletion of one page in the flat map |
| PageTables.FramesMatter | kernel/mm/paging.c:53-76 | an address space depends on the words of its own directory and tables only |
| PageTables.OccupiedMeansMapped | kernel/mm/paging.c:298-305 | a table has a present entry exactly when a page of its 4 MiB is mapped |
| Paging.Paging.AllocTable | kernel/mm/paging.c:85-100 | a zeroed frame taken from the free ones, or 0 exactly when none can be had |
| Paging.Paging.EnsureTable | kernel/mm/paging.c:229-255 | the table of a directory index, old or new, with the mappings unchanged; a new directory entry is writable and for users exactly as the flags are |
| Paging.Paging.Map | kernel/mm/paging.c:219-261 | an update of the flat map at one page, unless the page needs a table and none can be had: then nothing changes; a directory entry that was there stays, a new one has the writable and user bits of the flags |
| Paging.Paging.IsOccupied | kernel/mm/paging.c:301-305 | the scan tells whether a present entry is left |
| Paging.Paging.ReclaimTable | kernel/mm/paging.c:307-317 | an empty table goes back to the free frames and leaves the directory; no mapping changes |
| Paging.Paging.Unmap | kernel/mm/paging.c:263-318 | a deletion from the flat map; the table goes too exactly when it has become empty |
| Paging.Paging.Translate | kernel/mm/paging.c:334-358 | agrees with the flat map at every offset of every page |
| Paging.Paging.CreateDirectory | kernel/mm/paging.c:360-377 | an empty user half, the kernel directory's entries above, and one frame taken |
| Paging.Paging.CopyKernelMappings | kernel/mm/paging.c:457-476 | entries 768 to 1023 become those of the kernel directory, nothing else changes |
| Paging.Paging.FreeTable | kernel/mm/paging.c:417-441 | the pages of one table and the table are freed |
| Paging.Paging.DestroyDirectory | kernel/mm/paging.c:379-455 | every mapped frame, every table and the directory are free afterwards; no other frame is written |
| Paging.Paging.DestroyPrivate | kernel/mm/paging.c:379-455 | each of them is given back exactly once: the count of free pages grows by one for each |
| AddressSpace.MapFrame | kernel/mm/paging.c:219-261 | mapping an allocated frame moves it, and at most one table, into the address space; no frame is lost or made |
| AddressSpace.ReleasePage | kernel/mm/vmm.c:18-32 | translate, unmap and free give back the frame of a page and any table left empty |
| AddressSpace.SameMappingsSameFrames | kernel/mm/paging.c:263-318 | equal mappings over tables that stayed mean equal frames held |
| AddressSpace.RolledBack | kernel/kernel/elf_loader.c:349-382 | a rollback that restores the mappings restores the free frames |
| AddressSpaceLife.RunOps | kernel/mm/paging.c:219-318 | any run of paging_map and paging_unmap is the run of updates and deletions on a flat map with room for a known number of tables, and keeps tables distinct and nonempty |
| AddressSpaceLife.OneTableEach | kernel/mm/paging.c:298-317 | there are exactly as many tables as 4 MiB regions with a mapped page |
| AddressSpaceLife.Lifetime | kernel/mm/paging.c:360-455 | create, map and release anything, destroy: the free frames are those of the beginning, and frames in use all along, shared kernel tables among them, are untouched |
| Vmm.UnmapPages | kernel/mm/vmm.c:9-33 | the range is unmapped, and its frames and emptied tables are free |
| Vmm.RangeUnmapped | kernel/mm/vmm.c:44-57 | tells exactly whether no page of the range is mapped |
| Vmm.MapRound | kernel/mm/vmm.c:59-81 | one round maps one page to a frame that was free, or loses the frame when no table can be had |
| Vmm.MapPages | kernel/mm/vmm.c:35-84 | every page is mapped to its own fresh frame, or everything is as before, or one frame is lost; the number of free frames alone decides which |
| Vmm.AllocPages | kernel/mm/vmm.c:98-111 | the same for vmm_alloc_pages, which also refuses an empty range |
| Vmm.RangeMapped | kernel/mm/vmm.c:59-83 | page by page: present and writable, each on its own frame that was free, and every other page as before |
| Vmm.FreePages | kernel/mm/vmm.c:113-117 | freeing what was allocated restores the mappings and the free frames |
| Vmm.EnoughFrames | kernel/mm/vmm.c:59-83 | a frame for each page and each missing table is enough |
| Vmm.LossHappens | kernel/mm/vmm.c:75-80 | with one frame left and no table, the allocation loses it |
| Heap.HeapAlign | kernel/mm/heap.c:61-68 | the least multiple of 8 not below the size, 0 if that is no uint32_t |
| Heap.Heap.constructor | kernel/mm/heap.c:215-236 | one free block of a page |
| Heap.Heap.FindBlock | kernel/mm/heap.c:70-85 | the block with that payload address, NULL exactly if there is none |
| Heap.Heap.FindFree | kernel/mm/heap.c:87-102 | the lowest free block that is large enough, NULL exactly if none is |
| Heap.Heap.LastBlock | kernel/mm/heap.c:104-117 | the last block |
| Heap.Heap.Merge | kernel/mm/heap.c:119-140 | no two neighbours are free, and every allocation keeps its address and size |
| Heap.Heap.Expand | kernel/mm/heap.c:142-180 | the free space at the end grows by a page, exactly when the page allocator grants it |
| Heap.Heap.SplitBlock | kernel/mm/heap.c:183-209 | the rest becomes a free block if more than a header is left |
| Heap.Heap.Use | kernel/mm/heap.c:264-266 | the chosen block is split and marked: the allocation has the size asked for, and the rest stays free, unless no more than a header would be left |
| Heap.Heap.Kmalloc | kernel/mm/heap.c:239-271 | terminates; first fit; takes the size asked for and leaves the rest of the block free behind it, unless no more than a header would be left; grows by no more pages than needed; fails for a representable size only when a page is refused; other allocations stay |
| Heap.Heap.Kfree | kernel/mm/heap.c:273-291 | exactly that allocation is gone, neighbours are merged, the others stay |
| HeapTiles.TilesOrdered | kernel/mm/heap.c:25-55 | blocks are in address order, within the heap, without overlap |
| HeapTiles.SizesSumToExtent | kernel/mm/heap.c:183-209 | headers and payloads add up to the extent of the heap |
| HeapTiles.LivePayloadsDisjoint | kernel/mm/heap.c:239-271 | two live allocations do not overlap |
| HeapTiles.NothingLive | kernel/mm/heap.c:273-291 | once all is freed, in whatever order, one block covers the heap |
| HeapTiles.BlocksDetermined | kernel/mm/heap.c:119-140 | the live allocations alone determine the blocks, not the order of the calls |
| Vam.Vam.constructor | kernel/mm/vam.c:307-346 | exactly the image, the heap region and the stack region are reserved |
| Vam.RegionMeets | kernel/mm/vam.c:195-204 | a region reserves exactly the pages that it meets |
| Vam.Vam.AllocPages | kernel/mm/vam.c:369-388 | the lowest free run, 0 exactly if there is none; live ranges are disjoint from each other and from the reserved regions |
| Vam.Vam.FreePages | kernel/mm/vam.c:401-412 | exactly that live range is given back |
| Vam.Vam.AllocStack | kernel/mm/vam.c:219-238 | the base of the lowest free slot, 0 exactly if all are taken |
| Vam.Vam.FreeStack | kernel/mm/vam.c:247-272 | the slot with that base is free; any other address is ignored |
| Vam.StacksDisjoint | kernel/mm/vam.c:219-238 | slots do not overlap and lie in the region reserved for them |
| ElfImage.Validate | kernel/kernel/elf_loader.c:19-84 | accepts exactly the ELF32 little-endian i386 executables whose program headers can be read within the image |
| ElfFormat.HeaderFields | kernel/kernel/elf_loader.c:37-81 | the fields that the loader reads are those of the ELF header as the format lays it out |
| ElfFormat.ValidMeans | kernel/kernel/elf_loader.c:30-83 | accepted are exactly the images whose header has the magic number, class, encoding, type, machine and program header table of a loadable i386 executable |
| ElfFormat.SegmentFields | kernel/kernel/elf_loader.c:118-121 | the segment read for index i is the i-th program header of the table, field by field |
| ElfFormat.SoundMeansFits | kernel/kernel/elf_loader.c:130-145 | the checks of a PT_LOAD header hold exactly if the file part fits the segment and the image and the segment does not overflow |
| ElfImage.CopyIsRightIffAligned | kernel/kernel/elf_loader.c:274-332 | every address of a segment gets the byte that belongs there if and only if p_vaddr is page-aligned or there is no file part |
| ElfImage.CopiesFromFile | kernel/kernel/elf_loader.c:289-331 | what is copied comes from the file part of the segment, within the image |
| ElfImage.NothingInFront | kernel/kernel/elf_loader.c:281-312 | the part of the first page in front of the segment is zero |
| ElfPlan.PagesOfSegment | kernel/kernel/elf_loader.c:150-182 | a segment in the user half gets exactly the pages that share an address with it, and an empty one the page inside which it starts |
| ElfLoader.CopyPage | kernel/kernel/elf_loader.c:281-332 | a zeroed page becomes the page that the image prescribes |
| ElfLoader.MapChecked | kernel/kernel/elf_loader.c:218-249 | the page is mapped, or mapping and frames are as before; it fails only if no table can be had |
| ElfLoader.MapNewPage | kernel/kernel/elf_loader.c:191-249 | the page is mapped to a zeroed frame that was free, or nothing changes; two free frames are enough |
| ElfLoader.LoadPage | kernel/kernel/elf_loader.c:180-333 | one more page of the image is loaded, or memory and frames are as before, up to what the heap took |
| ElfLoader.LoadSegment | kernel/kernel/elf_loader.c:180-333 | all pages of the segment, or a prefix that the tracking list records |
| ElfLoader.Rollback | kernel/kernel/elf_loader.c:349-382 | the mappings and the free frames are as before the call, but for frames that the heap took |
| ElfLoader.Load | kernel/kernel/elf_loader.c:86-384 | success: exactly the pages of the image are mapped, as loaded; failure anywhere: mappings and free frames as before; it fails only for a bad image or want of frames |
| ElfPlan.LoadedImage | kernel/kernel/elf_loader.c:147-333 | each address of an aligned segment is in a user page, writable if and only if PF_W, of a frame that was free, and reads its file byte, or 0 up to the end of its last page |
| ElfPlan.OnlyTheImage | kernel/kernel/elf_loader.c:150-182 | every page mapped anew shares an address with a PT_LOAD segment, or an empty one starts inside it |
| ElfPlan.AllTakenBack | kernel/kernel/elf_loader.c:349-382 | with every tracked page taken back, no frame is missing |
| Mkfs.CopyFile | tools/mkfs.c:51-90 | the chunks add up to the whole file |
| Mkfs.CreateFileEntry | tools/mkfs.c:92-106 | a zero-padded name, the offset and the size, in 72 bytes |
| Mkfs.AnyRejected | tools/mkfs.c:108-138 | inputs with an empty or overlong path, or too large a file, are refused |
| Mkfs.LayOut | tools/mkfs.c:169-182 | each file is at the end of the one before, the first after the table |
| Mkfs.Run | tools/mkfs.c:140-234 | the image is superblock, table and contents, and there is one exactly when inputs exist, paths have 1 to 63 bytes and files less than 2^32 |
| FsFormat.EntryFields | tools/mkfs.c:92-106 | a reader finds the name padded with zeros, the offset and the size in the i-th entry |
| FsFormat.SuperblockFields | tools/mkfs.c:184-190 | and the magic, version, count and offsets in the superblock |
| FsFormat.ContentSlice | tools/mkfs.c:228-232 | the bytes at the i-th offset are the i-th file |
| Fs.StringsEqual | kernel/fs/fs.c:70-71 | a name field equals a path exactly when it holds the path and then a terminator |
| Fs.FileSystem.Mount | kernel/fs/fs.c:11-55 | accepts exactly the images with the magic number and version whose table lies inside and whose data follows it; the globals change exactly when the image has a superblock |
| Fs.FileSystem.Find | kernel/fs/fs.c:57-75 | the first entry of that name, none exactly if no entry has it |
| Fs.FileSystem.FileData | kernel/fs/fs.c:77-89 | data is given only when all of it lies inside the image |
| File.File.Open | kernel/file/file.c:6-36 | succeeds exactly for a valid access mode and an existing path, and then starts at 0; otherwise changes nothing |
| File.File.Read | kernel/file/file.c:54-95 | what is left, at most the count, is copied, the position moves on by it and it is the result (as ssize_t); -1 for a file that is not open for reading |
| File.File.Close | kernel/file/file.c:97-105 | the file is as before it was opened |
| FsRoundTrip.ImageMounts | kernel/fs/fs.c:11-55 | what mkfs writes can be mounted |
| FsRoundTrip.NamesFound | kernel/fs/fs.c:57-75 | an entry answers to its own name and to no other path |
| FsRoundTrip.FindInImage | kernel/fs/fs.c:57-75 | names lead to their own entries |
| FsRoundTrip.ReadSequence | kernel/file/file.c:54-95 | any sequence of reads gives the prefix that the counts ask for, in the end the whole file and then 0; each returns the number of bytes it adds, and they add up to the position |
| FsRoundTrip.WriteMountRead | tools/mkfs.c:140-234 | written, mounted, opened by path and read with any counts, a file comes back; a path opens exactly if an input has it |

## Left out

- Interrupt controllers, timers, descriptor tables, the TSS, `context_switch` itself, boot code, console and keyboard: a switch is a change of `current`.
- `scheduler_restore`, and `scheduler_init` on a live system: for tests only.
- `sys_exec`, user-mode threads and user stacks: the lifecycle is that of kernel threads.
- Reuse of addresses: a freed thread or process identifier does not come back, as a kmalloc result might.
- Kernel stacks and the memory of `struct thread` in `thread_create` and `thread_destroy`: `Heap`, `Vam` and `AddressSpace` treat what they call.
- TaskKernel.KernelTasks: lists are sequences and the thread list of a process is a set; `List` shows that the pointers refine sequences.
- TaskSystem keeps ticks possible between any two sections, also where `semaphore_release` left interrupts off: it has more runs than the code.
- TaskSystem.Enabled asks of callers what the source asks: unlock only what one owns, at most one joiner, never both join and detach, unblock only what blocked itself, a count below 2^32 - 1 at release.
- Early boot before `reaper_init`, when `scheduler_push_zombie` returns without effect.
- The walk over Multiboot tags and the first pass of `pmm_init`: the memory map is a sequence of regions that fit in the page total.
- Memory above 4 GiB, and the 16 MiB direct-map window behind `PHYS_TO_VIRT`: frames are objects, and the words of tables and the bytes of pages are two arrays.
- Page tables that the boot code shares between directory entries 0-3 and 768-771: directories are taken to name distinct tables.
- TLB invalidation, `paging_init`, the recursive entry, and the user range and string checks.
- Effective permissions: directory-entry flags come from the first mapping in 4 MiB only, so only the flags of page-table entries are stated.
- Later changes of the kernel half in directories that already exist: the source does not propagate them.
- AddressSpaceLife.RunOps: runs are those with the allocation-failure test hook off; `Paging.Map` covers it on.
- `vmm_alloc_pages_any`.
- Heap.Heap.Kmalloc: which pages the page allocator grants is a parameter, and it grants none from 0xFFC00000 on; the source never compares with the end of the heap region.
- Payload bytes of the heap, and the debugging counters and dumps.
- Vam.Vam.AllocPages: counts above the total, for which the bound of the loop underflows.
- ElfLoader.Load: overlapping or already mapped segment pages, which lose a frame, are excluded for the headers before the first bad one; kmalloc of a tracking node is a parameter, and the nodes, which stay allocated after a success, are not kept. Two frames a page is a bound that suffices for success, not the exact number.
- NULL pointer arguments, which most functions refuse.
- `file_read` on an entry whose data lies outside the image: the source does not check the pointer.
- Fs.FileSystem.Find: names without a terminator in the image, and lookups after a mount that failed; the source would read beyond.
- Host file errors in mkfs, and the parsing of `path=source`.
- The file table of a process.
