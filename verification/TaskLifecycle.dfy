/** Semaphore counts and thread lifetimes over whole runs, and the ASSERTs of the source. */
module TaskLifecycle {
  import opened Sequences
  import opened TaskState
  import opened TaskSystem
  import opened TaskInvariant
  import opened TaskProofs
  import opened TaskSteps
  import opened TaskLifeSteps
  import opened TaskRuns
  import opened TaskQueues
  import opened TaskTheorems

  // ----- semaphores -----

  /** Acquires that an event admits: at once when the count is positive, or handed to a waiter. */
  function Admits(s: System, e: Event, x: SemaphorePtr): nat {
    (if e == SemaphoreAcquire(x) && x in s.k.count && s.k.count[x] > 0 then 1 else 0)
    + |Departed(s, e, SemaphoreQueue(x))|
  }

  function Releases(e: Event, x: SemaphorePtr): nat {
    if e == SemaphoreRelease(x) then 1 else 0
  }

  ghost function AdmittedIn(s: System, es: seq<Event>, x: SemaphorePtr): nat
    decreases |es|
  {
    if es == [] then 0 else Admits(s, es[0], x) + AdmittedIn(Apply(s, es[0]), es[1..], x)
  }

  ghost function ReleasesIn(es: seq<Event>, x: SemaphorePtr): nat {
    if es == [] then 0 else Releases(es[0], x) + ReleasesIn(es[1..], x)
  }

  /** What only semaphores, terminations and the reaper change. */
  predicate Steady(k: Kernel, k': Kernel) {
    k'.count == k.count && k'.zombies == k.zombies && k'.reaper == k.reaper
  }

  lemma SwitchesAreSteady(k: Kernel)
    ensures Steady(k, Switch(k)) && Steady(k, TaskState.Tick(k)) && Steady(k, TaskState.Yield(k)) && Steady(k, Block(k))
  {
    hide Rescheduled, Successor, Without;
  }

  lemma SleepsAreSteady(k: Kernel)
    ensures forall q :: Steady(k, Sleep(k, q))
    ensures forall m :: Steady(k, TaskState.MutexLock(k, m))
    ensures forall x :: TaskState.SemaphoreAcquire(k, x).zombies == k.zombies
                     && TaskState.SemaphoreAcquire(k, x).reaper == k.reaper
  {
    hide Rescheduled, Successor, Without, Queue;
  }

  lemma WakesAreSteady(k: Kernel)
    ensures forall q :: Steady(k, Wake(k, q)) && Steady(k, WakeAll(k, q))
    ensures forall m :: Steady(k, MutexRelease(k, m))
    ensures forall t :: Steady(k, Unblock(k, t))
    ensures forall x :: TaskState.SemaphoreRelease(k, x).zombies == k.zombies
                     && TaskState.SemaphoreRelease(k, x).reaper == k.reaper
  {
    hide Queue;
  }

  lemma WaitsAreSteady(k: Kernel)
    ensures forall c, m :: Steady(k, CondvarSleep(k, c, m))
  {
    hide Queue, Rescheduled, Successor, Without;
  }

  lemma LivesAreSteady(k: Kernel)
    ensures forall t :: Steady(k, TaskState.ThreadAdd(k, t))
    ensures forall t, p :: Steady(k, Create(k, t, p))
    ensures forall ts :: Steady(k, Destroy(k, ts))
    ensures Drain(k).count == k.count && Drain(k).reaper == k.reaper
  {
    hide Surviving;
  }

  lemma PushIsSteady(k: Kernel)
    ensures forall t :: PushZombie(k, t).count == k.count && PushZombie(k, t).reaper == k.reaper
  {
    hide Queue;
  }

  lemma WakeAllIsSteady(k: Kernel)
    ensures forall q ::
              Steady(k, WakeAll(k, q)) && WakeAll(k, q).current == k.current && WakeAll(k, q).detached == k.detached
  {
    hide Queue;
  }

  lemma TerminateIsSteady(k: Kernel)
    ensures Terminate(k).count == k.count && Terminate(k).reaper == k.reaper
    ensures k.current !in k.detached ==> Terminate(k).zombies == k.zombies
  {
    hide WakeAll, PushZombie, Without;
    var k1 := Suspend(k, Terminated);
    WakeAllIsSteady(k1);
    PushIsSteady(WakeAll(k1, TerminationQueue(k.current)));
  }

  lemma EndsAreSteady(k: Kernel)
    ensures KillCurrent(k).count == k.count && KillCurrent(k).reaper == k.reaper
    ensures k.current !in k.detached ==> KillCurrent(k).zombies == k.zombies
    ensures forall t :: Detach(k, t).count == k.count && Detach(k, t).reaper == k.reaper
    ensures forall t | !(t in k.state && k.state[t] == Terminated) :: Detach(k, t).zombies == k.zombies
  {
    hide Terminate, Rescheduled, Successor, PushZombie;
    TerminateIsSteady(k);
    forall t ensures Detach(k, t).count == k.count && Detach(k, t).reaper == k.reaper {
      PushIsSteady(k.(detached := k.detached + {t}));
    }
  }

  lemma CountsKept(s: System, e: Event)
    requires !e.SemaphoreAcquire? && !e.SemaphoreRelease?
    ensures Apply(s, e).k.count == s.k.count
  {
    hide Sleep, Terminate, KillCurrent, Detach, Destroy, Drain, WakeAll, Wake, CondvarSleep, Switch, Block, Unblock,
      TaskState.SemaphoreAcquire, TaskState.SemaphoreRelease, TaskState.Tick, TaskState.Yield, TaskState.MutexLock,
      MutexRelease, TaskState.ThreadAdd, Create;
    SwitchesAreSteady(s.k);
    SleepsAreSteady(s.k);
    WakesAreSteady(s.k);
    WaitsAreSteady(s.k);
    LivesAreSteady(s.k);
    EndsAreSteady(s.k);
  }

  lemma CountStep(s: System, e: Event, x: SemaphorePtr)
    requires Enabled(s, e) && x in s.k.count
    ensures x in Apply(s, e).k.count
    ensures s.k.count[x] + Releases(e, x) == Apply(s, e).k.count[x] + Admits(s, e, x)
  {
    if !e.SemaphoreAcquire? && !e.SemaphoreRelease? {
      hide Apply, Queue;
      CountsKept(s, e);
    } else {
      hide Terminate, Destroy, Drain, Detach, CondvarSleep, WakeAll, LockStep, UnlockStep, DestroyStep, KillCurrent;
    }
  }

  /** Initial count and releases are what is left of the count and the admitted acquires. */
  lemma {:induction false} SemaphoreConservation(s: System, es: seq<Event>, x: SemaphorePtr)
    requires Legal(s, es) && x in s.k.count
    ensures x in Run(s, es).k.count
    ensures s.k.count[x] + ReleasesIn(es, x) == Run(s, es).k.count[x] + AdmittedIn(s, es, x)
    decreases |es|
  {
    hide Apply, Enabled, Admits, Releases;
    if es != [] {
      CountStep(s, es[0], x);
      SemaphoreConservation(Apply(s, es[0]), es[1..], x);
    }
  }

  /** A positive count means that nobody waits. */
  lemma PositiveCountMeansNoWaiters(s: System, x: SemaphorePtr)
    requires Reachable(s) && x in s.k.count && s.k.count[x] > 0
    ensures Queue(s.k, SemaphoreQueue(x)) == []
  {
    ReachableInv(s);
    PositiveCountNoWaiters(s, x);
  }

  // ----- zombies, joins and destruction -----

  lemma ZombieListIsExact(s: System)
    requires Reachable(s)
    ensures NoDup(s.k.zombies)
    ensures forall t :: t in s.k.zombies <==> t in s.k.state && s.k.state[t] == Terminated && t in s.k.detached
  {
    hide Inv, KernelInv, CoreInv, JoinQueueInv, PcInv, HandoffInv, MutexInv, OwnersKnown, JoinInv, ProcessInv,
      Reachable;
    ReachableInv(s);
    InvParts(s);
    KernelParts(s.k);
    assert forall t :: t in s.k.zombies <==> Zombie(s.k.state, s.k.detached, t);
  }

  lemma JoinEnds(s: System)
    requires PcOf(s).InJoin?
    ensures Apply(s, ThreadJoinReturn).k.state == s.k.state - {PcOf(s).thread}
  {
    hide Surviving;
  }

  /** thread_join comes back only when its thread has terminated; it then frees it. */
  lemma JoinReturnsAfterTermination(s: System)
    requires Reachable(s) && PcOf(s).InJoin?
    ensures var t := PcOf(s).thread;
            && IsThread(s, t) && s.k.state[t] == Terminated && t !in s.k.detached && t != s.k.current
            && t !in Apply(s, ThreadJoinReturn).k.state
  {
    hide Reachable, Inv, Apply;
    ReachableInv(s);
    InThread(s);
    JoinDue(s);
    CurrentFree(s);
    JoinEnds(s);
  }

  lemma DrainEnds(s: System)
    ensures var k' := Apply(s, ReaperDrainAll).k;
            k'.zombies == [] && k'.state == s.k.state - (set t | t in s.k.zombies)
  {
    hide Surviving;
  }

  /** The reaper's drain loop frees exactly the zombies, leaves the list empty, and never frees itself. */
  lemma DrainEmptiesList(s: System)
    requires Reachable(s) && PcOf(s) == ReaperDrain
    ensures Apply(s, ReaperDrainAll).k.zombies == []
    ensures forall t | t in s.k.state :: t in Apply(s, ReaperDrainAll).k.state <==> t !in s.k.zombies
    ensures s.k.current == s.k.reaper && s.k.reaper !in s.k.zombies
  {
    hide Reachable, Inv, Apply;
    ReachableInv(s);
    InThread(s);
    CurrentFree(s);
    NotReaper(s);
    ZombieListIsExact(s);
    DrainEnds(s);
  }

  /** The events that free thread t. */
  predicate Frees(s: System, e: Event, t: ThreadPtr) {
    || (e == ThreadJoin(t) && t in s.k.state && s.k.state[t] == Terminated)
    || (e == ThreadJoinReturn && PcOf(s) == InJoin(t))
    || (e == ReaperDrainAll && t in s.k.zombies)
  }

  lemma PcsKept(s: System, e: Event, t: ThreadPtr)
    requires t in s.pc && s.k.current in s.pc
    ensures t in Apply(s, e).pc <==> !Frees(s, e, t) || t == s.k.current
  {
    hide Sleep, Terminate, KillCurrent, Detach, Destroy, Drain, WakeAll, Wake, CondvarSleep, Switch, Block, Unblock,
      TaskState.SemaphoreAcquire, TaskState.SemaphoreRelease, TaskState.Tick, TaskState.Yield, TaskState.MutexLock,
      MutexRelease, TaskState.ThreadAdd, Create;
  }

  lemma IdleKept(s: System, e: Event, t: ThreadPtr)
    requires t in s.pc && Enabled(s, e) && (PcOf(s) == Dead || s.k.current !in s.pc)
    ensures t in Apply(s, e).pc && !Frees(s, e, t)
  {
    hide Sleep, Terminate, KillCurrent, Detach, Destroy, Drain, WakeAll, Wake, CondvarSleep, Switch, Block, Unblock,
      TaskState.SemaphoreAcquire, TaskState.SemaphoreRelease, TaskState.Tick, TaskState.Yield, TaskState.MutexLock,
      MutexRelease, TaskState.ThreadAdd, Create;
  }

  lemma PcsAppear(s: System, e: Event, t: ThreadPtr)
    requires Enabled(s, e) && t !in s.pc && t in s.usedThreads && (s.k.current in s.pc || s.k.current == IDLE)
    ensures t in Apply(s, e).usedThreads && t !in Apply(s, e).pc
  {
    hide Sleep, Terminate, KillCurrent, Detach, Destroy, Drain, WakeAll, Wake, CondvarSleep, Switch, Block, Unblock,
      TaskState.SemaphoreAcquire, TaskState.SemaphoreRelease, TaskState.Tick, TaskState.Yield, TaskState.MutexLock,
      MutexRelease, TaskState.ThreadAdd, Create;
  }

  lemma ThreadsHavePcs(s: System)
    requires Inv(s)
    ensures s.pc.Keys == s.k.state.Keys - {IDLE} && IDLE in s.k.state && s.k.state.Keys <= s.usedThreads
    ensures s.k.current in s.pc || s.k.current == IDLE
  {
  }

  lemma FreedIsTerminated(s: System, e: Event, t: ThreadPtr)
    requires Inv(s) && Enabled(s, e) && IsThread(s, t) && Frees(s, e, t)
    ensures s.k.state[t] == Terminated && t != s.k.current && t != s.k.reaper
  {
    hide Inv;
    InThread(s);
    CurrentFree(s);
    ReaperLives(s);
    if e == ThreadJoinReturn {
      JoinDue(s);
    } else if e == ReaperDrainAll {
      ZombiesNotJoined(s);
    }
  }

  lemma ReaperLives(s: System)
    requires Inv(s)
    ensures s.k.reaper in s.k.detached && s.k.reaper in s.k.linked && s.k.reaper in s.k.state
    ensures s.k.state[s.k.reaper] != Terminated
  {
    assert PcSuits(s.pc[s.k.reaper], s.k.state[s.k.reaper], WaitOf(s.k.waitQueue, s.k.reaper),
                   s.k.reaper in s.handoff, s.k.reaper in s.k.linked, s.k.reaper == s.k.reaper);
  }

  /**
   * A thread is freed by the join or the drain that is due, and by no other event: it has
   * terminated, is not `current`, is not the reaper, and no list or queue still holds it.
   */
  lemma OnlyDueThreadsFreed(s: System, e: Event, t: ThreadPtr)
    requires Reachable(s) && Enabled(s, e) && IsThread(s, t)
    ensures t in Apply(s, e).k.state <==> !Frees(s, e, t)
    ensures Frees(s, e, t) ==>
              && s.k.state[t] == Terminated && t != s.k.current && t != s.k.reaper
              && t !in s.k.ready && forall q :: t !in Queue(s.k, q)
  {
    hide Reachable, Inv, Apply, Enabled, Frees;
    ReachableInv(s);
    EventKeepsInv(s, e);
    ThreadsHavePcs(s);
    ThreadsHavePcs(Apply(s, e));
    if s.k.current in s.pc {
      PcsKept(s, e, t);
      if Frees(s, e, t) {
        FreedIsTerminated(s, e, t);
        TerminatedIsNowhere(s, t);
      }
    } else {
      IdleKept(s, e, t);
    }
  }

  /** A freed thread never comes back, so no thread is destroyed twice. */
  lemma {:induction false} FreedOnce(s: System, es: seq<Event>, t: ThreadPtr)
    requires Inv(s) && Legal(s, es) && t in s.usedThreads && t !in s.k.state
    ensures t !in Run(s, es).k.state
    decreases |es|
  {
    hide Inv, Apply, Enabled;
    if es != [] {
      EventKeepsInv(s, es[0]);
      ThreadsHavePcs(s);
      ThreadsHavePcs(Apply(s, es[0]));
      PcsAppear(s, es[0], t);
      FreedOnce(Apply(s, es[0]), es[1..], t);
    }
  }

  // ----- processes -----

  /** A process to which a thread was added lives exactly as long as one of its added threads. */
  lemma ProcessLivesWithThreads(s: System, p: ProcessPtr)
    requires Reachable(s) && p in s.populated
    ensures p in s.k.processes <==> Populated(s.k.linked, s.k.process, p)
  {
    ReachableInv(s);
  }

  /** An event destroys a process exactly when it frees the last of its added threads. */
  lemma ProcessDiesWithLastThread(s: System, e: Event, p: ProcessPtr)
    requires Reachable(s) && Enabled(s, e) && p in s.populated
    ensures p in s.k.processes && p !in Apply(s, e).k.processes <==>
            Populated(s.k.linked, s.k.process, p) && !Populated(Apply(s, e).k.linked, Apply(s, e).k.process, p)
  {
    hide Reachable, Apply, Enabled, Populated;
    ReachableStep(s, e);
    PopulatedGrows(s, e);
    ProcessLivesWithThreads(s, p);
    ProcessLivesWithThreads(Apply(s, e), p);
  }

  lemma PopulatedGrows(s: System, e: Event)
    ensures s.populated <= Apply(s, e).populated
  {
    hide Sleep, Terminate, KillCurrent, Detach, Destroy, Drain, WakeAll, Wake, CondvarSleep, Switch, Block, Unblock,
      TaskState.SemaphoreAcquire, TaskState.SemaphoreRelease, TaskState.Tick, TaskState.Yield, TaskState.MutexLock,
      MutexRelease, TaskState.ThreadAdd, Create;
  }

  // ----- the reaper -----

  /** The reaper sleeps although there is something to free. */
  predicate ReaperMisses(s: System) {
    s.k.reaper in Queue(s.k, ReaperQueue) && s.k.zombies != []
  }

  lemma ZombiesKept(s: System, e: Event)
    requires !ZombieAppears(s, e) && e != ReaperDrainAll
    ensures Apply(s, e).k.zombies == s.k.zombies
  {
    hide Sleep, Terminate, KillCurrent, Detach, Destroy, Drain, WakeAll, Wake, CondvarSleep, Switch, Block, Unblock,
      TaskState.SemaphoreAcquire, TaskState.SemaphoreRelease, TaskState.Tick, TaskState.Yield, TaskState.MutexLock,
      MutexRelease, TaskState.ThreadAdd, Create;
    SwitchesAreSteady(s.k);
    SleepsAreSteady(s.k);
    WakesAreSteady(s.k);
    WaitsAreSteady(s.k);
    LivesAreSteady(s.k);
    EndsAreSteady(s.k);
  }

  lemma OnlyReaperQueued(s: System)
    requires Inv(s)
    ensures forall t | t in Queue(s.k, ReaperQueue) :: t == s.k.reaper
    ensures |Queue(s.k, ReaperQueue)| <= 1
  {
    hide Inv, Queue, PcInv;
    forall t | t in Queue(s.k, ReaperQueue) ensures t == s.k.reaper {
      QueuedThread(s, t, ReaperQueue);
      ReaperPc(s, t);
    }
    QueueNoDup(s, ReaperQueue);
    if |Queue(s.k, ReaperQueue)| > 1 {
      AllSame(Queue(s.k, ReaperQueue), s.k.reaper);
    }
  }

  lemma AllSame(ts: seq<ThreadPtr>, r: ThreadPtr)
    requires |ts| > 1 && forall t | t in ts :: t == r
    ensures !NoDup(ts)
  {
    assert ts[0] in ts && ts[1] in ts;
  }

  lemma QueueNoDup(s: System, q: QueuePtr)
    requires Inv(s)
    ensures NoDup(Queue(s.k, q))
  {
  }

  lemma ReaperPc(s: System, t: ThreadPtr)
    requires Inv(s) && t in s.pc && s.pc[t] == ReaperAsleep
    ensures t == s.k.reaper
  {
    assert PcSuits(s.pc[t], s.k.state[t], WaitOf(s.k.waitQueue, t), t in s.handoff, t in s.k.linked, t == s.k.reaper);
  }

  lemma ReaperKept(s: System, e: Event)
    ensures Apply(s, e).k.reaper == s.k.reaper
  {
    hide Sleep, Terminate, KillCurrent, Detach, Destroy, Drain, WakeAll, Wake, CondvarSleep, Switch, Block, Unblock,
      TaskState.SemaphoreAcquire, TaskState.SemaphoreRelease, TaskState.Tick, TaskState.Yield, TaskState.MutexLock,
      MutexRelease, TaskState.ThreadAdd, Create;
    SwitchesAreSteady(s.k);
    SleepsAreSteady(s.k);
    WakesAreSteady(s.k);
    WaitsAreSteady(s.k);
    LivesAreSteady(s.k);
    EndsAreSteady(s.k);
  }

  /**
   * "A sleeping reaper has nothing to free" is false: it fails exactly when the reaper goes to sleep
   * while the zombie list is not empty, which its loop does not check. No other event breaks it.
   */
  lemma ReaperMissesOnlyBySleeping(s: System, e: Event)
    requires Reachable(s) && Enabled(s, e) && !ReaperMisses(s)
    ensures ReaperMisses(Apply(s, e)) <==> e == ReaperSleep && s.k.zombies != []
  {
    hide Reachable, Inv, Apply, Enabled, Queue;
    ReachableInv(s);
    var q, q' := Queue(s.k, ReaperQueue), Queue(Apply(s, e).k, ReaperQueue);
    QueueStep(s, e, ReaperQueue);
    OnlyReaperQueued(s);
    ReaperKept(s, e);
    if e == ReaperSleep {
      ReaperSleeps(s);
      ZombiesKept(s, e);
      assert s.k.reaper == (q[0..] + [s.k.current])[|q|];
    } else if s.k.reaper in q' {
      assert s.k.reaper in q;
      if e == ReaperDrainAll {
        DrainEnds(s);
      } else if !ZombieAppears(s, e) {
        ZombiesKept(s, e);
      }
    }
  }

  lemma ReaperSleeps(s: System)
    requires Inv(s) && Enabled(s, ReaperSleep)
    ensures s.k.current == s.k.reaper
  {
    InThread(s);
    NotReaper(s);
  }

  // ----- the ASSERTs of the source -----

  /** list_push_back(&ready_list, ...) and the state that thread_unblock demands. */
  predicate CanUnblock(k: Kernel, t: ThreadPtr) {
    t in k.state && k.state[t] == Blocked && t !in k.ready
  }

  /** wait_queue_sleep: there is a current thread and its wait_node is not linked. */
  predicate CanSleep(k: Kernel) {
    k.current != NULL && k.current !in k.waitQueue
  }

  predicate CanWake(k: Kernel, q: QueuePtr) {
    Queue(k, q) != [] ==> CanUnblock(k, Queue(k, q)[0])
  }

  /** The conditions that the code run by an event asserts. */
  predicate Asserts(s: System, e: Event) {
    var k := s.k;
    match e
    case MutexLock(m) => m in k.owner ==> CanSleep(k)
    case MutexUnlock(m) => m in k.owner && k.owner[m] == k.current
    case MutexUnlockWake => PcOf(s).Handoff? ==> CanUnblock(k, PcOf(s).target)
    case CondvarWait(c, m) =>
      m in k.owner && k.owner[m] == k.current && CanWake(k, MutexQueue(m)) && CanSleep(k)
    case CondvarWaitRelock => PcOf(s).Relock? && PcOf(s).mutex in k.owner ==> CanSleep(k)
    case CondvarSignal(c) => CanWake(k, CondvarQueue(c))
    case CondvarBroadcast(c) => forall t | t in Queue(k, CondvarQueue(c)) :: CanUnblock(k, t)
    case SemaphoreAcquire(x) => CanSleep(k)
    case SemaphoreRelease(x) => CanWake(k, SemaphoreQueue(x))
    case ThreadUnblock(t) => CanUnblock(k, t)
    case ThreadAdd(t) => t !in k.linked && t !in k.ready
    case ThreadJoin(t) => t !in k.detached && ((t in k.state && k.state[t] == Terminated) || CanSleep(k))
    case ThreadJoinReturn => PcOf(s).InJoin? ==> PcOf(s).thread in k.state && k.state[PcOf(s).thread] == Terminated
    case ThreadDetach(t) =>
      t !in k.detached && (t in k.state && k.state[t] == Terminated ==> t !in k.zombies && CanWake(k, ReaperQueue))
    case ThreadExit =>
      && k.current != NULL && k.current != k.reaper && k.current !in k.zombies && CanWake(k, ReaperQueue)
      && forall t | t in Queue(k, TerminationQueue(k.current)) :: CanUnblock(k, t)
    case ReaperSleep => CanSleep(k)
    case ReaperDrainAll =>
      forall t | t in k.zombies :: t in k.state && k.state[t] == Terminated && t != k.reaper
    case _ => true
  }

  lemma QueuedCanUnblock(s: System, q: QueuePtr)
    requires Inv(s)
    ensures forall t | t in Queue(s.k, q) :: CanUnblock(s.k, t)
    ensures CanWake(s.k, q)
  {
    assert forall t | t in s.k.waitQueue :: !Runnable(s.k.state, s.k.linked, t);
  }

  lemma UnlinkedNotReady(s: System, t: ThreadPtr)
    requires Inv(s)
    ensures t !in s.k.linked ==> t !in s.k.ready
    ensures t in s.k.state && s.k.state[t] == Blocked ==> t !in s.k.ready
    ensures t !in s.k.detached ==> t !in s.k.zombies
    ensures t in s.k.state && s.k.state[t] != Terminated ==> t !in s.k.zombies
    ensures NULL !in s.k.state && s.k.current in s.k.state
  {
    assert Runnable(s.k.state, s.k.linked, t) <==> t in s.k.ready;
    assert Zombie(s.k.state, s.k.detached, t) <==> t in s.k.zombies;
  }

  lemma HandoffCanUnblock(s: System)
    requires Inv(s) && PcOf(s).Handoff?
    ensures CanUnblock(s.k, PcOf(s).target)
  {
    hide CanUnblock;
    InThread(s);
    HandoffOwner(s, s.k.current);
    TargetBlocked(s, PcOf(s).target);
    UnlinkedNotReady(s, PcOf(s).target);
    assert CanUnblock(s.k, PcOf(s).target) by { CanUnblockIf(s.k, PcOf(s).target); }
  }

  lemma CanUnblockIf(k: Kernel, t: ThreadPtr)
    requires t in k.state && k.state[t] == Blocked && t !in k.ready
    ensures CanUnblock(k, t)
  {
  }

  lemma TargetBlocked(s: System, x: ThreadPtr)
    requires Inv(s) && x in s.handoff
    ensures x in s.k.state && s.k.state[x] == Blocked
  {
  }

  /** No ASSERT fails, in any event of any run. */
  lemma NoAssertFails(s: System, e: Event)
    requires Reachable(s) && Enabled(s, e)
    ensures Asserts(s, e)
  {
    hide Reachable, Inv, Queue, CanUnblock, CanWake, PcSuits, Joined, Enabled, Asserts;
    ReachableInv(s);
    UnlinkedNotReady(s, s.k.current);
    if e.ThreadUnblock? || e.ThreadAdd? || e.ThreadJoinReturn? || e.ThreadDetach? || e.ThreadExit?
      || e.ReaperDrainAll? {
      LifeAssertsHold(s, e);
    } else {
      WaitAssertsHold(s, e);
    }
  }

  lemma CallerFree(s: System, e: Event)
    requires Inv(s) && Enabled(s, e) && (InUser(s) || PcOf(s).Relock? || PcOf(s).ReaperTop?)
    ensures s.k.current != NULL && s.k.current !in s.k.waitQueue && s.k.current in s.k.state
    ensures s.k.state[s.k.current] == Running && (InUser(s) ==> s.k.current != s.k.reaper)
  {
    hide Inv, PcSuits, Enabled;
    InThread(s);
    CurrentFree(s);
    NotReaper(s);
    UnlinkedNotReady(s, s.k.current);
  }

  lemma WaitAssertsHold(s: System, e: Event)
    requires Inv(s) && Enabled(s, e)
    requires !e.ThreadUnblock? && !e.ThreadAdd? && !e.ThreadJoinReturn? && !e.ThreadDetach? && !e.ThreadExit?
    requires !e.ReaperDrainAll?
    ensures Asserts(s, e)
  {
    hide Inv, Queue, CanUnblock, CanWake, Joined;
    if InUser(s) || PcOf(s).Relock? || PcOf(s).ReaperTop? { CallerFree(s, e); }
    match e {
      case MutexUnlockWake => HandoffCanUnblock(s);
      case CondvarWait(_, m) => QueuedCanUnblock(s, MutexQueue(m));
      case CondvarSignal(cv) => QueuedCanUnblock(s, CondvarQueue(cv));
      case CondvarBroadcast(cv) => QueuedCanUnblock(s, CondvarQueue(cv));
      case SemaphoreRelease(x) => QueuedCanUnblock(s, SemaphoreQueue(x));
      case _ =>
    }
  }

  lemma LifeAssertsHold(s: System, e: Event)
    requires Inv(s) && Enabled(s, e)
    requires e.ThreadUnblock? || e.ThreadAdd? || e.ThreadJoinReturn? || e.ThreadDetach? || e.ThreadExit?
             || e.ReaperDrainAll?
    ensures Asserts(s, e)
  {
    hide Inv, Queue, CanUnblock, CanWake, Joined;
    if InUser(s) { CallerFree(s, e); }
    match e {
      case ThreadUnblock(t) => UnlinkedNotReady(s, t); CanUnblockIf(s.k, t);
      case ThreadAdd(t) => UnlinkedNotReady(s, t);
      case ThreadJoinReturn => InThread(s); JoinDue(s);
      case ThreadDetach(t) => QueuedCanUnblock(s, ReaperQueue); UnlinkedNotReady(s, t);
      case ThreadExit =>
        UnlinkedNotReady(s, s.k.current);
        QueuedCanUnblock(s, ReaperQueue);
        QueuedCanUnblock(s, TerminationQueue(s.k.current));
      case ReaperDrainAll => ZombiesNotJoined(s); ReaperLives(s);
    }
  }

  /** "terminated thread resumed" is never reached: what scheduler_next selects can run. */
  lemma SelectedCanRun(s: System)
    requires Reachable(s)
    ensures s.k.current in s.k.state && s.k.state[s.k.current] == Running
    ensures s.k.current != IDLE ==> s.k.current in s.k.ready && s.k.current in s.pc && s.pc[s.k.current] != Dead
  {
    ReachableInv(s);
    if s.k.current != IDLE { CurrentFree(s); }
  }
}
