/**
 * kernel/task/ statement by statement. Each method is proved to do to the memory what the
 * corresponding function of TaskState says, and to open exactly the preemption windows that
 * separate the events of TaskSystem: `windows` records the memory whenever interrupts come on.
 *
 * A call that switches ends where context_switch hands the processor to another thread; all that is
 * left of it, unless a Resume method says otherwise, is interrupt_restore once it runs again.
 */
module TaskKernel {
  import opened Sequences
  import opened TaskState
  import opened TaskLoops

  class KernelTasks {
    var current: ThreadPtr
    var readyList: seq<ThreadPtr>
    var zombieList: seq<ThreadPtr>
    var quantumRemaining: nat
    var state: States
    var waitQueue: Waits
    var queues: Queues
    var detached: set<ThreadPtr>
    var process: map<ThreadPtr, ProcessPtr>
    var groupLinked: set<ThreadPtr>
    var processList: set<ProcessPtr>
    var owner: Owners
    var count: map<SemaphorePtr, nat>
    const reaperThread: ThreadPtr
    var interruptsEnabled: bool
    ghost var windows: seq<Kernel>

    constructor (reaper: ThreadPtr)
      ensures Abs() == Kernel(NULL, [], [], SCHEDULER_QUANTUM_TICKS, map[], map[], map[], {}, map[], {}, {},
                                        map[], map[], reaper)
      ensures !interruptsEnabled && windows == []
    {
      current, readyList, zombieList, quantumRemaining := NULL, [], [], SCHEDULER_QUANTUM_TICKS;
      state, waitQueue, queues, detached, process := map[], map[], map[], {}, map[];
      groupLinked, processList, owner, count, reaperThread := {}, {}, map[], map[], reaper;
      interruptsEnabled, windows := false, [];
    }

    ghost function Abs(): Kernel
      reads this
    {
      Kernel(current, readyList, zombieList, quantumRemaining, state, waitQueue, queues, detached, process,
                       groupLinked, processList, owner, count, reaperThread)
    }

    /** What the boot code sets up: neither NULL nor the idle thread is ever linked. */
    predicate Schedulable()
      reads this
    {
      IDLE !in readyList && NULL !in readyList && NULL !in state
    }

    /** In an interrupts-off section, with all preemption windows so far in the past. */
    twostate predicate StaysOff()
      reads this
    {
      !interruptsEnabled && windows == old(windows)
    }

    /** Interrupts are as before; if they were on, they came on once, with the memory as it is now. */
    twostate predicate OneWindow()
      reads this
    {
      && interruptsEnabled == old(interruptsEnabled)
      && windows == old(windows) + if interruptsEnabled then [Abs()] else []
    }

    // ----- kernel/arch/x86/arch.c -----

    method InterruptSave() returns (saved: bool)
      modifies this`interruptsEnabled
      ensures saved == old(interruptsEnabled) && !interruptsEnabled
    {
      saved := interruptsEnabled;
      interruptsEnabled := false;
    }

    method InterruptRestore(saved: bool)
      modifies this`interruptsEnabled, this`windows
      ensures interruptsEnabled == saved
      ensures windows == old(windows) + if saved then [Abs()] else []
    {
      interruptsEnabled := saved;
      if saved { windows := windows + [Abs()]; }
    }

    // ----- kernel/task/scheduler.c -----

    method SchedulerAdd(thread: ThreadPtr)
      requires !interruptsEnabled && thread !in readyList
      modifies this
      ensures Abs() == if thread == NULL then old(Abs()) else TaskState.SchedulerAdd(old(Abs()), thread)
      ensures StaysOff()
    {
      if thread == NULL { return; }
      readyList := readyList + [thread];
    }

    method SchedulerRemove(thread: ThreadPtr)
      requires !interruptsEnabled && thread != NULL
      modifies this
      ensures Abs() == TaskState.SchedulerRemove(old(Abs()), thread)
      ensures StaysOff()
    {
      if thread !in readyList { return; }
      var i := IndexOf(readyList, thread);
      readyList := readyList[..i] + readyList[i + 1..];
    }

    method SchedulerNext() returns (next: ThreadPtr)
      requires Schedulable()
      modifies this
      ensures Abs() == TaskState.SchedulerNext(old(Abs())) && next == current
      ensures interruptsEnabled == old(interruptsEnabled) && windows == old(windows)
    {
      if readyList == [] {
        current := IDLE;
        state := state[current := Running];
        return current;
      }
      if current == NULL {
        current := readyList[0];
        state := state[current := Running];
        return current;
      }
      if current in state && state[current] == Running && current != IDLE {
        state := state[current := Ready];
      }
      var node;
      if current !in readyList {
        node := 0;
      } else {
        node := IndexOf(readyList, current) + 1;
        if node == |readyList| { node := 0; }
      }
      current := readyList[node];
      state := state[current := Running];
      return current;
    }

    method SchedulerSwitch()
      requires !interruptsEnabled && Schedulable()
      modifies this
      ensures Abs() == Switch(old(Abs())) && StaysOff()
    {
      var next := SchedulerNext();
      quantumRemaining := SCHEDULER_QUANTUM_TICKS;
    }

    method SchedulerTick()
      requires !interruptsEnabled && Schedulable()
      modifies this
      ensures Abs() == Tick(old(Abs())) && StaysOff()
    {
      if current == NULL { return; }
      quantumRemaining := if quantumRemaining == 0 then UINT32_MODULUS - 1 else quantumRemaining - 1;
      if quantumRemaining > 0 { return; }
      SchedulerSwitch();
    }

    method SchedulerYield()
      requires !interruptsEnabled && Schedulable()
      modifies this
      ensures Abs() == Yield(old(Abs())) && StaysOff()
    {
      if current == NULL { return; }
      SchedulerSwitch();
    }

    // ----- kernel/task/wait.c -----

    method WaitQueueAdd(queue: QueuePtr, thread: ThreadPtr)
      requires thread != NULL && thread !in Queue(Abs(), queue)
      modifies this
      ensures Abs() == Enqueue(old(Abs()), queue, thread)
      ensures interruptsEnabled == old(interruptsEnabled) && windows == old(windows)
    {
      waitQueue := waitQueue[thread := queue];
      queues := queues[queue := Waiters(queues, queue) + [thread]];
    }

    method WaitQueueRemove(queue: QueuePtr) returns (thread: ThreadPtr)
      modifies this
      ensures if Queue(old(Abs()), queue) == [] then thread == NULL && Abs() == old(Abs())
              else thread == Queue(old(Abs()), queue)[0] && Abs() == Dequeue(old(Abs()), queue)
      ensures interruptsEnabled == old(interruptsEnabled) && windows == old(windows)
    {
      if Waiters(queues, queue) == [] { return NULL; }
      thread := Waiters(queues, queue)[0];
      queues := queues[queue := Waiters(queues, queue)[1..]];
      waitQueue := waitQueue - {thread};
    }

    method WaitQueueWake(queue: QueuePtr)
      requires !interruptsEnabled && (Queue(Abs(), queue) != [] ==> Unblockable(Abs(), Queue(Abs(), queue)[0]))
      modifies this
      ensures Abs() == Wake(old(Abs()), queue) && StaysOff()
    {
      var thread := WaitQueueRemove(queue);
      if thread == NULL { return; }
      ThreadUnblock(thread);
    }

    method WaitQueueWakeAll(queue: QueuePtr)
      requires !interruptsEnabled && NoDup(Queue(Abs(), queue))
      requires forall t | t in Queue(Abs(), queue) :: Unblockable(Abs(), t)
      modifies this
      ensures Abs() == WakeAll(old(Abs()), queue) && StaysOff()
    {
      hide Waking, WakeAll, Unblock, Dequeue, Unblockable;
      ghost var k := Abs();
      ghost var ts := Queue(k, queue);
      ghost var n := 0;
      WaitersExist(k, ts);
      WakingStarts(k, queue);
      WakingRemoves(k, queue, Abs(), []);
      var thread := WaitQueueRemove(queue);
      while thread != NULL
        invariant n <= |ts| && StaysOff()
        invariant thread == if n == |ts| then NULL else ts[n]
        invariant Waking(k, queue, Abs(), if n == |ts| then ts[..n] else ts[..n] + [ts[n]], ts[..n])
        decreases |ts| - n
      {
        ghost var k1 := Abs();
        WakingNext(k, queue, k1, n);
        ThreadUnblock(thread);
        WakingUnblocks(k, queue, k1, ts[..n], thread);
        assert ts[..n + 1] == ts[..n] + [ts[n]];
        n := n + 1;
        WakingRemoves(k, queue, Abs(), ts[..n]);
        thread := WaitQueueRemove(queue);
      }
      assert ts[..|ts|] == ts;
      WakingEnds(k, queue, Abs());
    }

    method WaitQueueSleep(queue: QueuePtr)
      requires !interruptsEnabled && Schedulable() && current != NULL && current !in Queue(Abs(), queue)
      modifies this
      ensures Abs() == Sleep(old(Abs()), queue) && StaysOff()
    {
      var thread := current;
      WaitQueueAdd(queue, thread);
      state := state[thread := Blocked];
      SchedulerRemove(thread);
      SchedulerYield();
    }

    // ----- kernel/task/thread.c -----

    method ThreadUnblock(thread: ThreadPtr)
      requires Unblockable(Abs(), thread)
      modifies this
      ensures Abs() == Unblock(old(Abs()), thread) && OneWindow()
    {
      var saved := InterruptSave();
      state := state[thread := Ready];
      SchedulerAdd(thread);
      InterruptRestore(saved);
    }

    method ThreadAdd(thread: ThreadPtr)
      requires !interruptsEnabled && thread != NULL && thread !in groupLinked && thread !in readyList
      modifies this
      ensures Abs() == TaskState.ThreadAdd(old(Abs()), thread) && StaysOff()
    {
      groupLinked := groupLinked + {thread};
      SchedulerAdd(thread);
    }

    method ThreadBlock()
      requires Schedulable() && current != NULL
      modifies this
      ensures Abs() == Block(old(Abs())) && StaysOff()
    {
      var saved := InterruptSave();
      var thread := current;
      state := state[thread := Blocked];
      SchedulerRemove(thread);
      SchedulerYield();
    }

    method ThreadYield()
      requires Schedulable()
      modifies this
      ensures Abs() == Yield(old(Abs())) && windows == old(windows)
      ensures interruptsEnabled == (old(interruptsEnabled) && old(current) == NULL)
    {
      if current == NULL { return; }
      var saved := InterruptSave();
      SchedulerYield();
    }

    method ThreadDestroy(thread: ThreadPtr)
      requires !interruptsEnabled && thread in state && state[thread] == Terminated
      modifies this
      ensures Abs() == old(Abs()).(state := old(state) - {thread}, process := old(process) - {thread},
                                   linked := old(groupLinked) - {thread}, detached := old(detached) - {thread})
      ensures StaysOff()
    {
      if thread in groupLinked { groupLinked := groupLinked - {thread}; }
      state, process, detached := state - {thread}, process - {thread}, detached - {thread};
    }

    /** list_empty(&process->threads). */
    predicate ProcessEmpty(p: ProcessPtr)
      reads this
    {
      forall t | t in groupLinked :: t in process ==> process[t] != p
    }

    method ProcessDestroy(p: ProcessPtr)
      requires !interruptsEnabled && ProcessEmpty(p)
      modifies this
      ensures Abs() == old(Abs()).(processes := old(processList) - {p}) && StaysOff()
    {
      processList := processList - {p};
    }

    /** thread_destroy and, when the thread was the last of its process, process_destroy. */
    method DestroyWithProcess(thread: ThreadPtr)
      requires !interruptsEnabled && thread in state && state[thread] == Terminated && thread in process
      modifies this
      ensures Abs() == Destroy(old(Abs()), {thread}) && StaysOff()
    {
      var p := process[thread];
      ThreadDestroy(thread);
      if ProcessEmpty(p) { ProcessDestroy(p); }
      SurvivingOne(old(Abs()), thread);
    }

    /** Returns whether the caller sleeps; it then resumes with ThreadJoinResume. */
    method ThreadJoin(thread: ThreadPtr) returns (sleeps: bool)
      requires Schedulable() && current != NULL && current !in Queue(Abs(), TerminationQueue(thread))
      requires thread in state && thread in process && thread !in detached
      modifies this
      ensures sleeps == (old(state)[thread] != Terminated)
      ensures Abs() == if sleeps then Sleep(old(Abs()), TerminationQueue(thread)) else Destroy(old(Abs()), {thread})
      ensures if sleeps then StaysOff() else OneWindow()
    {
      var saved := InterruptSave();
      if state[thread] != Terminated {
        WaitQueueSleep(TerminationQueue(thread));
        return true;
      }
      DestroyWithProcess(thread);
      InterruptRestore(saved);
      return false;
    }

    method ThreadJoinResume(thread: ThreadPtr, saved: bool)
      requires !interruptsEnabled && thread in state && state[thread] == Terminated && thread in process
      modifies this
      ensures Abs() == Destroy(old(Abs()), {thread}) && interruptsEnabled == saved
      ensures windows == old(windows) + if saved then [Abs()] else []
    {
      DestroyWithProcess(thread);
      InterruptRestore(saved);
    }

    method ThreadDetach(thread: ThreadPtr)
      requires thread in state && thread !in detached && thread !in zombieList
      requires state[thread] == Terminated && Queue(Abs(), ReaperQueue) != [] ==>
                 Unblockable(Abs(), Queue(Abs(), ReaperQueue)[0])
      modifies this
      ensures Abs() == Detach(old(Abs()), thread) && OneWindow()
    {
      var saved := InterruptSave();
      detached := detached + {thread};
      if state[thread] == Terminated { SchedulerPushZombie(thread); }
      InterruptRestore(saved);
    }

    method SchedulerPushZombie(thread: ThreadPtr)
      requires !interruptsEnabled && thread in state && state[thread] == Terminated && thread !in zombieList
      requires Queue(Abs(), ReaperQueue) != [] ==> Unblockable(Abs(), Queue(Abs(), ReaperQueue)[0])
      modifies this
      ensures Abs() == PushZombie(old(Abs()), thread) && StaysOff()
    {
      zombieList := zombieList + [thread];
      WaitQueueWake(ReaperQueue);
    }

    method SchedulerNextZombie() returns (zombie: ThreadPtr)
      requires !interruptsEnabled
      modifies this
      ensures if old(zombieList) == [] then zombie == NULL && Abs() == old(Abs())
              else zombie == old(zombieList)[0] && Abs() == old(Abs()).(zombies := old(zombieList)[1..])
      ensures StaysOff()
    {
      if zombieList == [] { return NULL; }
      zombie := zombieList[0];
      zombieList := zombieList[1..];
    }

    method SchedulerTerminate(thread: ThreadPtr)
      requires !interruptsEnabled && thread == current && thread != NULL && thread != reaperThread && thread in state
      requires thread !in zombieList && NoDup(readyList) && NoDup(Queue(Abs(), TerminationQueue(thread)))
      requires forall t | t in Queue(Abs(), TerminationQueue(thread)) :: Unblockable(Abs(), t)
      requires forall t | t in Queue(Abs(), ReaperQueue) :: Unblockable(Abs(), t)
      requires forall t | t in Queue(Abs(), ReaperQueue) :: t !in Queue(Abs(), TerminationQueue(thread))
      requires state[thread] != Blocked
      modifies this
      ensures Abs() == Terminate(old(Abs())) && StaysOff()
    {
      hide Unblockable, WakeAll;
      SuspendKeepsUnblockable(Abs());
      WakeAllKeepsUnblockable(Suspend(Abs(), Terminated), TerminationQueue(thread));
      SchedulerRemove(thread);
      state := state[thread := Terminated];
      WaitQueueWakeAll(TerminationQueue(thread));
      if thread in detached { SchedulerPushZombie(thread); }
    }

    method ThreadKillCurrent()
      requires Schedulable() && current != NULL && current != reaperThread && current in state && NoDup(readyList)
      requires current !in zombieList && state[current] != Blocked && NoDup(Queue(Abs(), TerminationQueue(current)))
      requires forall t | t in Queue(Abs(), TerminationQueue(current)) :: Unblockable(Abs(), t)
      requires forall t | t in Queue(Abs(), ReaperQueue) :: Unblockable(Abs(), t)
      requires forall t | t in Queue(Abs(), ReaperQueue) :: t !in Queue(Abs(), TerminationQueue(current))
      modifies this
      ensures Abs() == KillCurrent(old(Abs())) && StaysOff()
    {
      TerminateKeepsSchedulable(Abs());
      hide Unblockable, Terminate;
      interruptsEnabled := false;
      SchedulerTerminate(current);
      SchedulerYield();
    }

    // ----- kernel/task/mutex.c -----

    method MutexLock(mutex: MutexPtr) returns (sleeps: bool)
      requires Schedulable() && current != NULL && current !in Queue(Abs(), MutexQueue(mutex))
      modifies this
      ensures Abs() == TaskState.MutexLock(old(Abs()), mutex) && sleeps == (mutex in old(owner))
      ensures if sleeps then StaysOff() else OneWindow()
    {
      var saved := InterruptSave();
      if mutex !in owner {
        owner := owner[mutex := current];
        InterruptRestore(saved);
        return false;
      }
      WaitQueueSleep(MutexQueue(mutex));
      return true;
    }

    /**
     * Called with interrupts on, a tick may fall between the change of owner and the unblocking;
     * called with interrupts off, as condvar_wait does, nothing may.
     */
    method MutexUnlock(mutex: MutexPtr)
      requires mutex in owner && owner[mutex] == current
      requires Queue(Abs(), MutexQueue(mutex)) != [] ==> Unblockable(Abs(), Queue(Abs(), MutexQueue(mutex))[0])
      modifies this
      ensures Abs() == TaskState.MutexUnlock(old(Abs()), mutex) && interruptsEnabled == old(interruptsEnabled)
      ensures mutex in owner <==> Queue(old(Abs()), MutexQueue(mutex)) != []
      ensures mutex in owner ==> owner[mutex] == Queue(old(Abs()), MutexQueue(mutex))[0]
      ensures windows == old(windows) +
                if !interruptsEnabled then []
                else if Queue(old(Abs()), MutexQueue(mutex)) == [] then [Abs()]
                else [MutexRelease(old(Abs()), mutex), Abs()]
    {
      var saved := InterruptSave();
      var thread := WaitQueueRemove(MutexQueue(mutex));
      if thread != NULL {
        owner := owner[mutex := thread];
        InterruptRestore(saved);
        ThreadUnblock(thread);
        return;
      }
      owner := owner - {mutex};
      InterruptRestore(saved);
    }

    // ----- kernel/task/condvar.c -----

    /** Up to the switch: no window separates the release of the mutex from the enqueueing. */
    method CondvarWait(condvar: CondvarPtr, mutex: MutexPtr)
      requires Schedulable() && current != NULL && current !in Queue(Abs(), CondvarQueue(condvar))
      requires mutex in owner && owner[mutex] == current
      requires Queue(Abs(), MutexQueue(mutex)) != [] ==> Unblockable(Abs(), Queue(Abs(), MutexQueue(mutex))[0])
      modifies this
      ensures Abs() == CondvarSleep(old(Abs()), condvar, mutex) && StaysOff()
    {
      var saved := InterruptSave();
      MutexUnlock(mutex);
      WaitQueueSleep(CondvarQueue(condvar));
    }

    /** condvar_wait from its return from wait_queue_sleep. */
    method CondvarWaitResume(mutex: MutexPtr, saved: bool) returns (sleeps: bool)
      requires Schedulable() && current != NULL && current !in Queue(Abs(), MutexQueue(mutex))
      modifies this
      ensures Abs() == TaskState.MutexLock(old(Abs()), mutex) && sleeps == (mutex in old(owner))
      ensures interruptsEnabled == (saved && !sleeps)
      ensures windows == old(windows) + if !saved then [] else if sleeps then [old(Abs())] else [old(Abs()), Abs()]
    {
      InterruptRestore(saved);
      sleeps := MutexLock(mutex);
    }

    method CondvarSignal(condvar: CondvarPtr)
      requires Queue(Abs(), CondvarQueue(condvar)) != [] ==> Unblockable(Abs(), Queue(Abs(), CondvarQueue(condvar))[0])
      modifies this
      ensures Abs() == Wake(old(Abs()), CondvarQueue(condvar)) && OneWindow()
    {
      var saved := InterruptSave();
      WaitQueueWake(CondvarQueue(condvar));
      InterruptRestore(saved);
    }

    method CondvarBroadcast(condvar: CondvarPtr)
      requires NoDup(Queue(Abs(), CondvarQueue(condvar)))
      requires forall t | t in Queue(Abs(), CondvarQueue(condvar)) :: Unblockable(Abs(), t)
      modifies this
      ensures Abs() == WakeAll(old(Abs()), CondvarQueue(condvar)) && OneWindow()
    {
      var saved := InterruptSave();
      WaitQueueWakeAll(CondvarQueue(condvar));
      InterruptRestore(saved);
    }

    // ----- kernel/task/semaphore.c -----

    method SemaphoreAcquire(semaphore: SemaphorePtr) returns (sleeps: bool)
      requires Schedulable() && current != NULL && current !in Queue(Abs(), SemaphoreQueue(semaphore))
      requires semaphore in count
      modifies this
      ensures Abs() == TaskState.SemaphoreAcquire(old(Abs()), semaphore) && sleeps == (old(count)[semaphore] == 0)
      ensures if sleeps then StaysOff() else OneWindow()
    {
      var saved := InterruptSave();
      if count[semaphore] > 0 {
        count := count[semaphore := count[semaphore] - 1];
        InterruptRestore(saved);
        return false;
      }
      WaitQueueSleep(SemaphoreQueue(semaphore));
      return true;
    }

    /** Interrupts are restored if and only if nobody waits: the wake path returns with them off. */
    method SemaphoreRelease(semaphore: SemaphorePtr)
      requires semaphore in count
      requires Queue(Abs(), SemaphoreQueue(semaphore)) != [] ==>
                 Unblockable(Abs(), Queue(Abs(), SemaphoreQueue(semaphore))[0])
      modifies this
      ensures Abs() == TaskState.SemaphoreRelease(old(Abs()), semaphore)
      ensures interruptsEnabled == (old(interruptsEnabled) && Queue(old(Abs()), SemaphoreQueue(semaphore)) == [])
      ensures windows == old(windows) + if interruptsEnabled then [Abs()] else []
    {
      var saved := InterruptSave();
      var thread := WaitQueueRemove(SemaphoreQueue(semaphore));
      if thread != NULL {
        ThreadUnblock(thread);
        return;
      }
      count := count[semaphore := (count[semaphore] + 1) % UINT32_MODULUS];
      InterruptRestore(saved);
    }

    // ----- kernel/task/reaper.c -----

    /** The inner loop of reaper_entry. */
    method ReaperDrain()
      requires NoDup(zombieList) && NULL !in zombieList && reaperThread !in zombieList
      requires forall t | t in zombieList :: t in state && state[t] == Terminated && t in process
      modifies this
      ensures Abs() == Drain(old(Abs())) && OneWindow()
    {
      hide DrainedUpTo, Destroy;
      var saved := InterruptSave();
      ghost var k := Abs();
      ghost var n := 0;
      DrainStarts(k);
      DrainPops(k, 0);
      var zombie := SchedulerNextZombie();
      while zombie != NULL
        invariant n <= |k.zombies| && StaysOff()
        invariant zombie == if n == |k.zombies| then NULL else k.zombies[n]
        invariant Abs() == DrainedUpTo(k, n, if n == |k.zombies| then n else n + 1)
        decreases |k.zombies| - n
      {
        DrainStep(k, n);
        DestroyWithProcess(zombie);
        n := n + 1;
        DrainPops(k, n);
        zombie := SchedulerNextZombie();
      }
      DrainEnds(k);
      InterruptRestore(saved);
    }
  }
}
