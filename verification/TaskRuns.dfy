/** Runs of the interleaved system: the invariant holds in every reachable state. */
module TaskRuns {
  import opened Sequences
  import opened TaskState
  import opened TaskSystem
  import opened TaskInvariant
  import opened TaskProofs
  import opened TaskSteps
  import opened TaskMutexSteps
  import opened TaskLifeSteps

  lemma InThread(s: System)
    requires Inv(s) && PcOf(s) != Dead
    ensures s.k.current != IDLE && s.k.current in s.pc
  {
  }

  lemma NotReaper(s: System)
    requires Inv(s) && s.k.current != IDLE
    ensures IsReaperPc(PcOf(s)) <==> s.k.current == s.k.reaper
  {
    CurrentFree(s);
  }

  lemma SchedulingEvents(s: System, e: Event)
    requires Inv(s) && Enabled(s, e)
             && (e.Tick? || e.Yield? || e.ThreadBlock? || e.ThreadBlockReturn? || e.ThreadUnblock?)
    ensures Inv(Apply(s, e))
  {
    hide Inv;
    match e
    case Tick =>
      if TickSwitches(s.k) { YieldStep(s); } else if s.k.current != NULL { QuantumStep(s); }
    case Yield => if s.k.current != NULL { YieldStep(s); }
    case ThreadBlock => InThread(s); BlockStep(s);
    case ThreadBlockReturn => InThread(s); NotReaper(s); MoveStep(s, User);
    case ThreadUnblock(t) => UnblockStep(s, t);
  }

  lemma MutexEvents(s: System, e: Event)
    requires Inv(s) && Enabled(s, e)
    requires e.MutexLock? || e.MutexLockReturn? || e.MutexUnlock? || e.MutexUnlockWake?
    ensures Inv(Apply(s, e))
  {
    hide Inv;
    InThread(s);
    match e
    case MutexLock(m) => if m in s.k.owner { LockSlowStep(s, m, false); } else { LockFastStep(s, m, false); }
    case MutexLockReturn => LockReturnStep(s, PcOf(s).mutex);
    case MutexUnlock(m) => if Queue(s.k, MutexQueue(m)) == [] { FreeStep(s, m); } else { PassStep(s, m); }
    case MutexUnlockWake => HandoffWakeStep(s, PcOf(s).mutex, PcOf(s).target);
  }

  lemma CondvarEvents(s: System, e: Event)
    requires Inv(s) && Enabled(s, e)
    requires e.CondvarWait? || e.CondvarWaitResume? || e.CondvarWaitRelock? || e.CondvarSignal? || e.CondvarBroadcast?
    ensures Inv(Apply(s, e))
  {
    hide Inv;
    InThread(s);
    NotReaper(s);
    match e
    case CondvarWait(cv, m) => WaitStep(s, cv, m);
    case CondvarWaitResume => MoveStep(s, Relock(PcOf(s).mutex));
    case CondvarWaitRelock =>
      var m := PcOf(s).mutex;
      if m in s.k.owner { LockSlowStep(s, m, true); } else { LockFastStep(s, m, true); }
    case CondvarSignal(cv) => WakeStep(s, CondvarQueue(cv));
    case CondvarBroadcast(cv) => WakeAllStep(s, CondvarQueue(cv));
  }

  lemma PositiveCountNoWaiters(s: System, x: SemaphorePtr)
    requires Inv(s) && x in s.k.count && s.k.count[x] > 0
    ensures Queue(s.k, SemaphoreQueue(x)) == []
  {
  }

  lemma SemaphoreEvents(s: System, e: Event)
    requires Inv(s) && Enabled(s, e)
    requires e.SemaphoreAcquire? || e.SemaphoreAcquireReturn? || e.SemaphoreRelease?
    ensures Inv(Apply(s, e))
  {
    hide Inv;
    InThread(s);
    NotReaper(s);
    match e
    case SemaphoreAcquire(x) =>
      if s.k.count[x] > 0 {
        PositiveCountNoWaiters(s, x);
        MoveStep(s, User);
        CountStep(At(s, s.k, User), x, s.k.count[x] - 1);
      } else {
        SleepStep(s, SemaphoreQueue(x), InAcquire(x));
      }
    case SemaphoreAcquireReturn => MoveStep(s, User);
    case SemaphoreRelease(x) =>
      if Queue(s.k, SemaphoreQueue(x)) != [] {
        WakeStep(s, SemaphoreQueue(x));
      } else {
        CountStep(s, x, s.k.count[x] + 1);
      }
  }

  lemma Joinable(s: System, t: ThreadPtr)
    requires Inv(s) && t in s.k.state && t != IDLE && t !in s.k.detached && s.k.state[t] == Terminated
    ensures KernelInv(Destroy(s.k, {t})) && t != s.k.reaper
  {
    hide Inv, KernelInv, CoreInv, ReadyInv, RunningInv, QueueInv, WaitingInv, ObjectInv, ThreadsInv, ZombieInv,
      JoinQueueInv, PcInv, HandoffInv, MutexInv, OwnersKnown, JoinInv, ProcessInv, Destroy;
    InvParts(s);
    CoreParts(s.k);
    DestroyJoinedKeeps(s.k, t);
  }

  /** thread_join resumes only when its thread has terminated, and is its only joiner. */
  lemma JoinDue(s: System)
    requires Inv(s) && s.k.current != IDLE && PcOf(s).InJoin?
    ensures var t := PcOf(s).thread;
            && t in s.k.state && t != IDLE && t !in s.k.detached && s.k.state[t] == Terminated
            && (forall u | u in s.pc && u != s.k.current && s.pc[u].InJoin? :: s.pc[u].thread != t)
  {
    CurrentFree(s);
  }

  lemma ZombiesNotJoined(s: System)
    requires Inv(s)
    ensures forall u | u in s.pc && s.pc[u].InJoin? :: s.pc[u].thread !in s.k.zombies
    ensures forall t | t in s.k.zombies :: t in s.k.state && s.k.state[t] == Terminated
  {
    assert forall t | t in s.k.zombies :: Zombie(s.k.state, s.k.detached, t);
  }

  lemma Drainable(s: System)
    requires Inv(s) && s.k.current == s.k.reaper && s.k.current != IDLE
    ensures KernelInv(Drain(s.k))
  {
    CurrentFree(s);
    DrainKeeps(s.k);
  }

  lemma ReaperDrainStep(s: System)
    requires Inv(s) && s.k.current != IDLE && PcOf(s) == ReaperDrain
    ensures Inv(DestroyStep(s, Drain(s.k), (set t | t in s.k.zombies), ReaperTop))
  {
    hide Inv, KernelInv;
    NotReaper(s);
    Drainable(s);
    ZombiesNotJoined(s);
    DestroyStepKeeps(s, Drain(s.k), (set t | t in s.k.zombies), ReaperTop);
  }

  lemma LifeEvents(s: System, e: Event)
    requires Inv(s) && Enabled(s, e)
    requires e.ThreadJoin? || e.ThreadJoinReturn? || e.ThreadDetach? || e.ThreadExit?
    ensures Inv(Apply(s, e))
  {
    hide Inv;
    InThread(s);
    NotReaper(s);
    match e
    case ThreadJoin(t) =>
      if s.k.state[t] == Terminated {
        Joinable(s, t);
        DestroyStepKeeps(s, Destroy(s.k, {t}), {t}, User);
      } else {
        SleepStep(s, TerminationQueue(t), InJoin(t));
      }
    case ThreadJoinReturn =>
      JoinDue(s);
      Joinable(s, PcOf(s).thread);
      DestroyStepKeeps(s, Destroy(s.k, {PcOf(s).thread}), {PcOf(s).thread}, User);
    case ThreadDetach(t) => DetachStep(s, t);
    case ThreadExit => ExitStep(s);
  }

  lemma CreationEvents(s: System, e: Event)
    requires Inv(s) && Enabled(s, e) && (e.ProcessCreate? || e.ThreadCreate? || e.ThreadAdd?)
    ensures Inv(Apply(s, e))
  {
    hide Inv;
    match e
    case ProcessCreate(p) => ProcessCreateStep(s, p);
    case ThreadCreate(t, p) => ThreadCreateStep(s, t, p);
    case ThreadAdd(t) => ThreadAddStep(s, t);
  }

  lemma ReaperEvents(s: System, e: Event)
    requires Inv(s) && Enabled(s, e) && (e.ReaperSleep? || e.ReaperResume? || e.ReaperDrainAll?)
    ensures Inv(Apply(s, e))
  {
    hide Inv;
    InThread(s);
    NotReaper(s);
    match e
    case ReaperSleep => SleepStep(s, ReaperQueue, ReaperAsleep);
    case ReaperResume => MoveStep(s, ReaperDrain);
    case ReaperDrainAll => ReaperDrainStep(s);
  }

  lemma EventKeepsInv(s: System, e: Event)
    requires Inv(s) && Enabled(s, e)
    ensures Inv(Apply(s, e))
  {
    hide Inv, Enabled, Apply;
    match e
    case Tick => SchedulingEvents(s, e);
    case Yield => SchedulingEvents(s, e);
    case ThreadBlock => SchedulingEvents(s, e);
    case ThreadBlockReturn => SchedulingEvents(s, e);
    case ThreadUnblock(_) => SchedulingEvents(s, e);
    case MutexLock(_) => MutexEvents(s, e);
    case MutexLockReturn => MutexEvents(s, e);
    case MutexUnlock(_) => MutexEvents(s, e);
    case MutexUnlockWake => MutexEvents(s, e);
    case CondvarWait(_, _) => CondvarEvents(s, e);
    case CondvarWaitResume => CondvarEvents(s, e);
    case CondvarWaitRelock => CondvarEvents(s, e);
    case CondvarSignal(_) => CondvarEvents(s, e);
    case CondvarBroadcast(_) => CondvarEvents(s, e);
    case SemaphoreAcquire(_) => SemaphoreEvents(s, e);
    case SemaphoreAcquireReturn => SemaphoreEvents(s, e);
    case SemaphoreRelease(_) => SemaphoreEvents(s, e);
    case ProcessCreate(_) => CreationEvents(s, e);
    case ThreadCreate(_, _) => CreationEvents(s, e);
    case ThreadAdd(_) => CreationEvents(s, e);
    case ThreadJoin(_) => LifeEvents(s, e);
    case ThreadJoinReturn => LifeEvents(s, e);
    case ThreadDetach(_) => LifeEvents(s, e);
    case ThreadExit => LifeEvents(s, e);
    case ReaperSleep => ReaperEvents(s, e);
    case ReaperResume => ReaperEvents(s, e);
    case ReaperDrainAll => ReaperEvents(s, e);
  }

  lemma InitialInv(count: map<SemaphorePtr, nat>, reaper: ThreadPtr, p: ProcessPtr)
    requires reaper != NULL && reaper != IDLE
    ensures Inv(Initial(count, reaper, p))
  {
    var s := Initial(count, reaper, p);
    assert forall t :: Runnable(s.k.state, s.k.linked, t) <==> t == reaper;
    assert forall q :: Waiters(s.k.queue, q) == [];
    assert reaper in s.k.linked && s.k.process[reaper] == p;
    assert Populated(s.k.linked, s.k.process, p);
  }

  // ----- runs -----

  ghost predicate Legal(s: System, es: seq<Event>)
    decreases |es|
  {
    es != [] ==> Enabled(s, es[0]) && Legal(Apply(s, es[0]), es[1..])
  }

  ghost function Run(s: System, es: seq<Event>): System
    decreases |es|
  {
    if es == [] then s else Run(Apply(s, es[0]), es[1..])
  }

  lemma {:induction false} RunKeepsInv(s: System, es: seq<Event>)
    requires Inv(s) && Legal(s, es)
    ensures Inv(Run(s, es))
    decreases |es|
  {
    hide Inv, Enabled, Apply;
    if es != [] {
      EventKeepsInv(s, es[0]);
      RunKeepsInv(Apply(s, es[0]), es[1..]);
    }
  }
}
