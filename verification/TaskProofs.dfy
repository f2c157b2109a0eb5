/** Every kernel operation keeps the invariant of the kernel's memory. */
module TaskProofs {
  import opened Sequences
  import opened TaskState
  import opened TaskInvariant

  predicate CanRun(st: ThreadState) { st == Ready || st == Running }

  /** Threads on the ready list change between READY and RUNNING; nothing else changes. */
  ghost predicate Reschedules(ready: seq<ThreadPtr>, state: States, state': States) {
    && state'.Keys == state.Keys
    && (forall t | t in state :: state'[t] == state[t] || (t in ready && CanRun(state[t]) && CanRun(state'[t])))
  }

  ghost predicate OnlySchedules(k: Kernel, k': Kernel) {
    && Reschedules(k.ready, k.state, k'.state)
    && k' == k.(current := k'.current, quantum := k'.quantum, state := k'.state)
  }

  lemma RescheduleKeeps(ready: seq<ThreadPtr>, linked: set<ThreadPtr>, state: States, state': States)
    requires ReadyInv(ready, state, linked) && Reschedules(ready, state, state')
    ensures ReadyInv(ready, state', linked)
    ensures forall t | t in state && !CanRun(state[t]) :: state'[t] == state[t]
  {
    assert forall t :: Runnable(state', linked, t) <==> Runnable(state, linked, t);
  }

  lemma TerminationFrame(zombies: seq<ThreadPtr>, detached: set<ThreadPtr>, queue: Queues, state: States,
                         state': States)
    requires state'.Keys == state.Keys
    requires forall t | t in state :: state'[t] == Terminated <==> state[t] == Terminated
    ensures ZombieInv(zombies, state, detached) ==> ZombieInv(zombies, state', detached)
    ensures JoinQueueInv(queue, state) ==> JoinQueueInv(queue, state')
  {
    assert forall t :: Zombie(state', detached, t) <==> Zombie(state, detached, t);
  }

  lemma RescheduledStates(
    ready: seq<ThreadPtr>, linked: set<ThreadPtr>, state: States, current: ThreadPtr, next: ThreadPtr)
    requires ReadyInv(ready, state, linked) && RunningInv(current, state)
    requires next in ready || (next == IDLE && ready == [])
    requires current != IDLE && current in state && state[current] == Running ==> current in ready
    ensures Reschedules(ready, state, Rescheduled(state, current, next))
    ensures RunningInv(next, Rescheduled(state, current, next))
  {
    if next in ready {
      assert Runnable(state, linked, next);
    } else {
      assert state[IDLE := Running] == state;
    }
  }

  lemma RunningIsListed(ready: seq<ThreadPtr>, process: map<ThreadPtr, ProcessPtr>, linked: set<ThreadPtr>,
                        processes: set<ProcessPtr>, state: States, t: ThreadPtr)
    requires ReadyInv(ready, state, linked) && ThreadsInv(state, process, linked, processes)
    requires t in state && t != IDLE && state[t] == Running
    ensures t in ready
  {
    assert Runnable(state, linked, t);
  }

  lemma SwitchStates(k: Kernel)
    requires CoreInv(k) && k.current in k.state
    ensures OnlySchedules(k, Switch(k)) && CurrentRuns(Switch(k)) && RunningInv(Switch(k).current, Switch(k).state)
  {
    if k.current != IDLE && k.state[k.current] == Running {
      RunningIsListed(k.ready, k.process, k.linked, k.processes, k.state, k.current);
    }
    RescheduledStates(k.ready, k.linked, k.state, k.current, Successor(k.ready, k.current));
  }

  lemma SwitchKeeps(k: Kernel)
    requires KernelInv(k) && k.current in k.state
    ensures KernelInv(Switch(k)) && CurrentRuns(Switch(k)) && OnlySchedules(k, Switch(k))
  {
    SwitchStates(k);
    RescheduleKeeps(k.ready, k.linked, k.state, Switch(k).state);
    TerminationFrame(k.zombies, k.detached, k.queue, k.state, Switch(k).state);
  }

  // ----- leaving the ready list -----

  lemma SuspendKeepsReady(
    ready: seq<ThreadPtr>, linked: set<ThreadPtr>, state: States, t: ThreadPtr, st: ThreadState)
    requires ReadyInv(ready, state, linked) && t in state && !CanRun(st)
    ensures ReadyInv(Without(ready, t), state[t := st], linked)
  {
    WithoutMembers(ready, t);
    assert forall u :: Runnable(state[t := st], linked, u) <==> Runnable(state, linked, u) && u != t;
  }

  lemma OneQueueChanged(queue: Queues, q: QueuePtr, ts: seq<ThreadPtr>)
    ensures forall r :: Waiters(queue[q := ts], r) == if r == q then ts else Waiters(queue, r)
  {
  }

  lemma NoDupAppend(ts: seq<ThreadPtr>, t: ThreadPtr)
    requires NoDup(ts) && t !in ts
    ensures NoDup(ts + [t])
  {
  }

  lemma EnqueueKeeps(queue: Queues, waitQueue: map<ThreadPtr, QueuePtr>, q: QueuePtr, t: ThreadPtr)
    requires QueueInv(queue, waitQueue) && t !in waitQueue
    ensures QueueInv(queue[q := Waiters(queue, q) + [t]], waitQueue[t := q])
  {
    hide NoDup, Waiters;
    assert t !in Waiters(queue, q);
    NoDupAppend(Waiters(queue, q), t);
    var ts := Waiters(queue, q) + [t];
    OneQueueChanged(queue, q, ts);
    assert forall u :: u in ts <==> u in Waiters(queue, q) || u == t;
    var queue', waitQueue' := queue[q := ts], waitQueue[t := q];
    forall u | u in waitQueue' ensures u in Waiters(queue', waitQueue'[u]) {
      assert Waiters(queue', q) == ts;
      if u != t { assert u in Waiters(queue, waitQueue[u]); }
    }
    forall r, u | u in Waiters(queue', r) ensures u in waitQueue' && waitQueue'[u] == r {
      if u != t { assert u in Waiters(queue, r); }
    }
    forall r ensures NoDup(Waiters(queue', r)) {
      assert NoDup(Waiters(queue, r));
    }
  }

  /** What wait_queue_sleep needs of the queue for the objects to stay as they should be. */
  ghost predicate MaySleep(k: Kernel, q: QueuePtr) {
    && (q.MutexQueue? ==> q.mutex in k.owner)
    && (q.SemaphoreQueue? ==> q.semaphore in k.count && k.count[q.semaphore] == 0)
    && (q.TerminationQueue? ==> q.thread in k.state && k.state[q.thread] != Terminated)
  }

  function Asleep(k: Kernel, q: QueuePtr): Kernel {
    Suspend(Enqueue(k, q, k.current), Blocked)
  }

  lemma QueuesAfterSleep(k: Kernel, q: QueuePtr, ts: seq<ThreadPtr>)
    requires ObjectInv(k.queue, k.owner, k.count) && JoinQueueInv(k.queue, k.state) && MaySleep(k, q)
    ensures ObjectInv(k.queue[q := ts], k.owner, k.count) && JoinQueueInv(k.queue[q := ts], k.state)
  {
    var queue' := k.queue[q := ts];
    assert forall m :: MutexQueue(m) != q ==> Waiters(queue', MutexQueue(m)) == Waiters(k.queue, MutexQueue(m));
    assert forall x :: SemaphoreQueue(x) != q ==>
        Waiters(queue', SemaphoreQueue(x)) == Waiters(k.queue, SemaphoreQueue(x));
    assert forall t :: TerminationQueue(t) != q ==>
        Waiters(queue', TerminationQueue(t)) == Waiters(k.queue, TerminationQueue(t));
  }

  lemma SleepPrepared(k: Kernel, q: QueuePtr)
    requires KernelInv(k) && CurrentRuns(k) && k.current != IDLE && MaySleep(k, q)
    ensures KernelInv(Asleep(k, q))
  {
    var k' := Asleep(k, q);
    assert Runnable(k.state, k.linked, k.current);
    SuspendKeepsReady(k.ready, k.linked, k.state, k.current, Blocked);
    EnqueueKeeps(k.queue, k.waitQueue, q, k.current);
    QueuesAfterSleep(k, q, Queue(k, q) + [k.current]);
    TerminationFrame(k.zombies, k.detached, k'.queue, k.state, k'.state);
  }

  lemma SleepKeeps(k: Kernel, q: QueuePtr)
    requires KernelInv(k) && CurrentRuns(k) && k.current != IDLE && MaySleep(k, q)
    ensures KernelInv(Sleep(k, q)) && CurrentRuns(Sleep(k, q))
    ensures OnlySchedules(Asleep(k, q), Sleep(k, q))
  {
    SleepPrepared(k, q);
    SwitchKeeps(Asleep(k, q));
  }

  // ----- joining the ready list -----

  lemma UnblockKeepsReady(ready: seq<ThreadPtr>, linked: set<ThreadPtr>, state: States, t: ThreadPtr)
    requires ReadyInv(ready, state, linked) && t in linked && t in state && t != IDLE && !CanRun(state[t])
    ensures ReadyInv(ready + [t], state[t := Ready], linked)
  {
    assert !Runnable(state, linked, t);
    NoDupConcat(ready, [t]);
    assert forall u :: Runnable(state[t := Ready], linked, u) <==> Runnable(state, linked, u) || u == t;
  }

  lemma UnblockKeeps(k: Kernel, t: ThreadPtr)
    requires KernelInv(k) && t in k.state && t != IDLE && k.state[t] == Blocked && t !in k.waitQueue
    ensures KernelInv(Unblock(k, t))
  {
    UnblockKeepsReady(k.ready, k.linked, k.state, t);
    TerminationFrame(k.zombies, k.detached, k.queue, k.state, k.state[t := Ready]);
  }

  lemma DequeueKeepsQueues(queue: Queues, waitQueue: map<ThreadPtr, QueuePtr>, q: QueuePtr)
    requires QueueInv(queue, waitQueue) && Waiters(queue, q) != []
    ensures var t := Waiters(queue, q)[0];
            t in waitQueue && QueueInv(queue[q := Waiters(queue, q)[1..]], waitQueue - {t})
  {
    var ts := Waiters(queue, q);
    var queue' := queue[q := ts[1..]];
    assert ts[0] in ts && ts[0] !in ts[1..];
    assert forall u :: u in ts <==> u == ts[0] || u in ts[1..];
    assert forall r :: Waiters(queue', r) == if r == q then ts[1..] else Waiters(queue, r);
  }

  lemma DequeueKeeps(k: Kernel, q: QueuePtr)
    requires KernelInv(k) && Queue(k, q) != []
    ensures KernelInv(Dequeue(k, q))
    ensures var t := Queue(k, q)[0]; t in k.waitQueue && t in k.state && k.state[t] == Blocked && t != IDLE
  {
    var k' := Dequeue(k, q);
    DequeueKeepsQueues(k.queue, k.waitQueue, q);
    ShrunkQueues(k, k'.queue);
  }

  lemma WakeKeeps(k: Kernel, q: QueuePtr)
    requires KernelInv(k)
    ensures KernelInv(Wake(k, q))
  {
    if Queue(k, q) != [] {
      DequeueKeeps(k, q);
      UnblockKeeps(Dequeue(k, q), Queue(k, q)[0]);
    }
  }

  lemma WakeAllKeepsReady(k: Kernel, q: QueuePtr)
    requires CoreInv(k)
    ensures ReadyInv(WakeAll(k, q).ready, WakeAll(k, q).state, k.linked)
  {
    var k' := WakeAll(k, q);
    assert forall t | t in Queue(k, q) :: t in k.waitQueue && !Runnable(k.state, k.linked, t);
    NoDupConcat(k.ready, Queue(k, q));
    assert forall t :: Runnable(k'.state, k.linked, t) <==> Runnable(k.state, k.linked, t) || t in Queue(k, q);
  }

  lemma WakeAllKeepsQueues(queue: Queues, waitQueue: map<ThreadPtr, QueuePtr>, q: QueuePtr)
    requires QueueInv(queue, waitQueue)
    ensures QueueInv(queue[q := []], waitQueue - (set t | t in Waiters(queue, q)))
  {
    var queue' := queue[q := []];
    var waitQueue' := waitQueue - (set t | t in Waiters(queue, q));
    assert forall r :: Waiters(queue', r) == if r == q then [] else Waiters(queue, r);
    assert forall t :: t in waitQueue' <==> t in waitQueue && waitQueue[t] != q;
  }

  lemma ShrunkQueues(k: Kernel, queue': Queues)
    requires forall r :: Waiters(queue', r) != [] ==> Waiters(k.queue, r) != []
    ensures ObjectInv(k.queue, k.owner, k.count) ==> ObjectInv(queue', k.owner, k.count)
    ensures JoinQueueInv(k.queue, k.state) ==> JoinQueueInv(queue', k.state)
  {
  }

  lemma WakeAllStates(k: Kernel, q: QueuePtr)
    requires QueueInv(k.queue, k.waitQueue)
    ensures WakeAll(k, q).state.Keys == k.state.Keys
    ensures forall t | t in k.state ::
              WakeAll(k, q).state[t] == if t in k.waitQueue && k.waitQueue[t] == q then Ready else k.state[t]
  {
  }

  lemma WakeAllKeeps(k: Kernel, q: QueuePtr)
    requires CoreInv(k)
    ensures CoreInv(WakeAll(k, q))
    ensures JoinQueueInv(k.queue, k.state) ==> JoinQueueInv(WakeAll(k, q).queue, k.state)
  {
    var k' := WakeAll(k, q);
    WakeAllKeepsReady(k, q);
    WakeAllStates(k, q);
    WakeAllKeepsQueues(k.queue, k.waitQueue, q);
    ShrunkQueues(k, k'.queue);
    assert WaitingInv(k'.waitQueue, k'.state);
  }

  lemma WakeAllKeepsKernel(k: Kernel, q: QueuePtr)
    requires KernelInv(k)
    ensures KernelInv(WakeAll(k, q))
  {
    WakeAllKeeps(k, q);
    WakeAllStates(k, q);
    TerminationFrame(k.zombies, k.detached, WakeAll(k, q).queue, k.state, WakeAll(k, q).state);
  }

  // ----- termination -----

  lemma SuspendTerminated(k: Kernel)
    requires CoreInv(k) && CurrentRuns(k) && k.current != IDLE
    ensures CoreInv(Suspend(k, Terminated)) && k.current in k.linked
  {
    assert Runnable(k.state, k.linked, k.current);
    SuspendKeepsReady(k.ready, k.linked, k.state, k.current, Terminated);
  }

  lemma JoinersWoken(k: Kernel, t: ThreadPtr)
    requires JoinQueueInv(k.queue, k.state) && t in k.state
    ensures JoinQueueInv(k.queue[TerminationQueue(t) := []], k.state[t := Terminated])
  {
    var queue' := k.queue[TerminationQueue(t) := []];
    assert forall u :: u != t ==> Waiters(queue', TerminationQueue(u)) == Waiters(k.queue, TerminationQueue(u));
  }

  lemma ZombieAdded(k: Kernel, t: ThreadPtr, state': States, detached': set<ThreadPtr>)
    requires ZombieInv(k.zombies, k.state, k.detached) && !Zombie(k.state, k.detached, t)
    requires state'.Keys == k.state.Keys
    requires forall u | u != t :: u in detached' <==> u in k.detached
    requires forall u | u in k.state && u != t :: state'[u] == Terminated <==> k.state[u] == Terminated
    ensures Zombie(state', detached', t) ==> ZombieInv(k.zombies + [t], state', detached')
    ensures !Zombie(state', detached', t) ==> ZombieInv(k.zombies, state', detached')
  {
    NoDupConcat(k.zombies, [t]);
    assert forall u :: u != t ==> (Zombie(state', detached', u) <==> Zombie(k.state, k.detached, u));
  }

  lemma TerminateKeeps(k: Kernel)
    requires KernelInv(k) && CurrentRuns(k) && k.current != IDLE
    ensures KernelInv(Terminate(k))
  {
    var c := k.current;
    var k1 := Suspend(k, Terminated);
    var k2 := WakeAll(k1, TerminationQueue(c));
    SuspendTerminated(k);
    WakeAllKeeps(k1, TerminationQueue(c));
    WakeAllStates(k1, TerminationQueue(c));
    JoinersWoken(k, c);
    TerminationFrame(k.zombies, k.detached, k2.queue, k1.state, k2.state);
    ZombieAdded(k, c, k2.state, k.detached);
    if c in k.detached {
      WakeKeeps(k2.(zombies := k2.zombies + [c]), ReaperQueue);
    }
  }

  lemma TerminateFrame(k: Kernel)
    requires k.current in k.state
    ensures Terminate(k).current == k.current && k.current in Terminate(k).state
  {
    hide Without, WakeAll, PushZombie;
    var k1 := Suspend(k, Terminated);
    WakeAllFrame(k1, TerminationQueue(k.current));
    PushFrame(WakeAll(k1, TerminationQueue(k.current)), k.current);
  }

  lemma WakeAllFrame(k: Kernel, q: QueuePtr)
    ensures WakeAll(k, q).current == k.current && WakeAll(k, q).state.Keys == k.state.Keys
    ensures WakeAll(k, q).detached == k.detached
  {
  }

  lemma PushFrame(k: Kernel, t: ThreadPtr)
    ensures PushZombie(k, t).current == k.current && k.state.Keys <= PushZombie(k, t).state.Keys
  {
  }

  lemma KillKeeps(k: Kernel)
    requires KernelInv(k) && CurrentRuns(k) && k.current != IDLE
    ensures KernelInv(KillCurrent(k)) && CurrentRuns(KillCurrent(k))
    ensures OnlySchedules(Terminate(k), KillCurrent(k))
  {
    TerminateKeeps(k);
    TerminateFrame(k);
    SwitchKeeps(Terminate(k));
  }

  lemma DetachKeeps(k: Kernel, t: ThreadPtr)
    requires KernelInv(k) && t in k.state && t != IDLE && t !in k.detached
    ensures KernelInv(Detach(k, t))
  {
    var k' := k.(detached := k.detached + {t});
    ZombieAdded(k, t, k.state, k'.detached);
    if k.state[t] == Terminated {
      WakeKeeps(k'.(zombies := k.zombies + [t]), ReaperQueue);
    }
  }

  // ----- creation and destruction -----

  lemma CreateKeeps(k: Kernel, t: ThreadPtr, p: ProcessPtr)
    requires KernelInv(k) && t !in k.state && t != NULL
    ensures KernelInv(Create(k, t, p))
  {
    hide QueueInv, ObjectInv;
    var k' := Create(k, t, p);
    assert forall u :: Runnable(k'.state, k.linked, u) <==> Runnable(k.state, k.linked, u);
    assert forall u :: Zombie(k'.state, k.detached, u) <==> Zombie(k.state, k.detached, u);
  }

  lemma ThreadAddKeeps(k: Kernel, t: ThreadPtr)
    requires KernelInv(k) && t in k.state && t != IDLE && t !in k.linked && k.process[t] in k.processes
    ensures KernelInv(ThreadAdd(k, t)) && t !in k.ready
  {
    assert !Runnable(k.state, k.linked, t);
    NoDupConcat(k.ready, [t]);
    assert forall u :: Runnable(k.state, k.linked + {t}, u) <==> Runnable(k.state, k.linked, u) || u == t;
  }

  /** The threads are ones that nothing in the kernel still points to. */
  ghost predicate MayDestroy(k: Kernel, ts: set<ThreadPtr>) {
    forall t | t in ts :: t in k.state && t != IDLE && t != k.reaper && k.state[t] == Terminated
  }

  lemma DestroyKeepsCore(k: Kernel, ts: set<ThreadPtr>)
    requires KernelInv(k) && MayDestroy(k, ts)
    ensures CoreInv(Destroy(k, ts)) && JoinQueueInv(k.queue, k.state - ts)
  {
    var k' := Destroy(k, ts);
    assert forall u :: Runnable(k'.state, k'.linked, u) <==> Runnable(k.state, k.linked, u);
    forall t | t in k'.linked ensures k'.process[t] in k'.processes {
      assert Populated(k.linked - ts, k.process - ts, k'.process[t]);
    }
  }

  lemma DestroyJoinedKeeps(k: Kernel, t: ThreadPtr)
    requires KernelInv(k) && MayDestroy(k, {t}) && t !in k.detached
    ensures KernelInv(Destroy(k, {t}))
  {
    DestroyKeepsCore(k, {t});
    var k' := Destroy(k, {t});
    assert forall u :: Zombie(k'.state, k'.detached, u) <==> Zombie(k.state, k.detached, u);
  }

  lemma DrainKeeps(k: Kernel)
    requires KernelInv(k) && k.reaper in k.state && k.state[k.reaper] != Terminated
    ensures KernelInv(Drain(k)) && MayDestroy(k, set t | t in k.zombies)
  {
    hide CoreInv, JoinQueueInv, Destroy, ReadyInv, RunningInv, QueueInv, WaitingInv, ObjectInv, ThreadsInv;
    KernelParts(k);
    CoreParts(k);
    var ts := set t | t in k.zombies;
    assert forall t | t in k.zombies :: Zombie(k.state, k.detached, t);
    DestroyKeepsCore(k, ts);
    CoreIgnoresZombies(Destroy(k, ts));
    DrainedState(k);
    assert forall t :: !Zombie(k.state - ts, k.detached - ts, t);
  }

  lemma CoreIgnoresZombies(k: Kernel)
    requires CoreInv(k)
    ensures CoreInv(k.(zombies := []))
  {
    hide ReadyInv, RunningInv, QueueInv, WaitingInv, ObjectInv, ThreadsInv, DetachedInv;
  }

  lemma DrainedState(k: Kernel)
    ensures var ts := set t | t in k.zombies;
            && Drain(k).state == k.state - ts && Drain(k).detached == k.detached - ts && Drain(k).zombies == []
            && Drain(k).queue == k.queue && Drain(k) == Destroy(k, ts).(zombies := [])
  {
    hide Surviving;
  }

  // ----- thread_block, semaphores and mutexes -----

  lemma BlockKeeps(k: Kernel)
    requires KernelInv(k) && CurrentRuns(k) && k.current != IDLE
    ensures KernelInv(Block(k)) && CurrentRuns(Block(k)) && OnlySchedules(Suspend(k, Blocked), Block(k))
  {
    var k' := Suspend(k, Blocked);
    assert Runnable(k.state, k.linked, k.current);
    SuspendKeepsReady(k.ready, k.linked, k.state, k.current, Blocked);
    TerminationFrame(k.zombies, k.detached, k.queue, k.state, k'.state);
    SwitchKeeps(k');
  }

  lemma CountKeeps(k: Kernel, x: SemaphorePtr, n: nat)
    requires KernelInv(k) && Queue(k, SemaphoreQueue(x)) == []
    ensures KernelInv(k.(count := k.count[x := n]))
  {
  }

  lemma OwnerKeeps(k: Kernel, owner': map<MutexPtr, ThreadPtr>)
    requires KernelInv(k) && forall m | m in k.owner :: m in owner' || Queue(k, MutexQueue(m)) == []
    ensures KernelInv(k.(owner := owner'))
  {
  }

  lemma ReleaseKeeps(k: Kernel, m: MutexPtr)
    requires KernelInv(k)
    ensures KernelInv(MutexRelease(k, m))
  {
    if Queue(k, MutexQueue(m)) == [] {
      OwnerKeeps(k, k.owner - {m});
    } else {
      DequeueKeeps(k, MutexQueue(m));
      OwnerKeeps(Dequeue(k, MutexQueue(m)), k.owner[m := Queue(k, MutexQueue(m))[0]]);
    }
  }

  lemma UnlockKeeps(k: Kernel, m: MutexPtr)
    requires KernelInv(k)
    ensures KernelInv(MutexUnlock(k, m))
  {
    ReleaseKeeps(k, m);
    if Queue(k, MutexQueue(m)) != [] {
      DequeueKeeps(k, MutexQueue(m));
      UnblockKeeps(MutexRelease(k, m), Queue(k, MutexQueue(m))[0]);
    }
  }
}
