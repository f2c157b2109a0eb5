/**
 * What an event changes and what it leaves alone: owners, detached threads, blocked threads, new
 * ones. Each change is tied to the event that the source has for it.
 */
module TaskEffects {
  import opened Sequences
  import opened TaskState
  import opened TaskSystem
  import opened TaskInvariant
  import opened TaskProofs
  import opened TaskSteps
  import opened TaskRuns
  import opened TaskQueues
  import opened TaskFairness
  import opened TaskTheorems
  import opened TaskLifecycle

  // ----- owners -----

  predicate Locks(s: System, e: Event, m: MutexPtr) {
    e == MutexLock(m) || (e == CondvarWaitRelock && PcOf(s) == Relock(m))
  }

  function OwnerOf(owner: Owners, m: MutexPtr): Option<ThreadPtr> {
    if m in owner then Some(owner[m]) else None
  }

  /** Neither owners nor detached threads change. */
  predicate Same(k: Kernel, k': Kernel) {
    k'.owner == k.owner && k'.detached == k.detached
  }

  lemma SwitchesAreSame(k: Kernel)
    ensures Same(k, Switch(k)) && Same(k, TaskState.Tick(k)) && Same(k, TaskState.Yield(k)) && Same(k, Block(k))
    ensures forall q :: Same(k, Sleep(k, q))
    ensures forall x :: Same(k, TaskState.SemaphoreAcquire(k, x))
    ensures forall m :: TaskState.MutexLock(k, m).detached == k.detached
  {
    hide Rescheduled, Successor, Without, Queue;
  }

  lemma WakesAreSame(k: Kernel)
    ensures forall q :: Same(k, Wake(k, q)) && Same(k, WakeAll(k, q))
    ensures forall t :: Same(k, Unblock(k, t))
    ensures forall x :: Same(k, TaskState.SemaphoreRelease(k, x))
    ensures forall m :: MutexRelease(k, m).detached == k.detached
  {
    hide Queue;
  }

  lemma LivesAreSame(k: Kernel)
    ensures forall t :: Same(k, TaskState.ThreadAdd(k, t))
    ensures forall t, p :: Same(k, Create(k, t, p))
    ensures forall ts :: Destroy(k, ts).owner == k.owner && Destroy(k, ts).detached == k.detached - ts
    ensures Drain(k).owner == k.owner && Drain(k).detached == k.detached - (set t | t in k.zombies)
  {
    hide Surviving;
  }

  lemma WaitsAreSame(k: Kernel)
    ensures forall c, m {:trigger CondvarSleep(k, c, m)} ::
              CondvarSleep(k, c, m).owner == MutexRelease(k, m).owner && CondvarSleep(k, c, m).detached == k.detached
  {
    hide Rescheduled, Successor, Without, Queue;
  }

  lemma TerminateIsSame(k: Kernel)
    ensures Same(k, Terminate(k))
  {
    hide WakeAll, Wake, Without;
    var k1 := Suspend(k, Terminated);
    WakesAreSame(k1);
    var k2 := WakeAll(k1, TerminationQueue(k.current));
    WakesAreSame(k2.(zombies := k2.zombies + [k.current]));
  }

  lemma EndsAreSame(k: Kernel)
    ensures Same(k, KillCurrent(k))
    ensures forall t :: Detach(k, t).owner == k.owner && Detach(k, t).detached == k.detached + {t}
  {
    hide Terminate, Rescheduled, Successor, Wake;
    TerminateIsSame(k);
    forall t ensures Detach(k, t).owner == k.owner && Detach(k, t).detached == k.detached + {t} {
      WakesAreSame(k.(detached := k.detached + {t}, zombies := k.zombies + [t]));
    }
  }

  lemma OwnersOfPlain(s: System, e: Event)
    requires !e.MutexLock? && !e.MutexUnlock? && !e.CondvarWait? && !e.CondvarWaitRelock?
    ensures Apply(s, e).k.owner == s.k.owner
  {
    hide Sleep, KillCurrent, Detach, Destroy, Drain, WakeAll, Wake, CondvarSleep, Switch, Block, Unblock,
      TaskState.SemaphoreAcquire, TaskState.SemaphoreRelease, TaskState.Tick, TaskState.Yield, TaskState.MutexLock,
      MutexRelease, TaskState.ThreadAdd, Create;
    SwitchesAreSame(s.k);
    WakesAreSame(s.k);
    LivesAreSame(s.k);
    EndsAreSame(s.k);
  }

  lemma OwnerOfLock(s: System, e: Event, m: MutexPtr)
    requires Enabled(s, e) && (e.MutexLock? || e.CondvarWaitRelock?)
    ensures OwnerOf(Apply(s, e).k.owner, m) ==
            if Locks(s, e, m) && m !in s.k.owner then Some(s.k.current) else OwnerOf(s.k.owner, m)
  {
    hide Sleep, Queue;
    SwitchesAreSame(s.k);
  }

  lemma OwnerOfUnlock(s: System, e: Event, m: MutexPtr)
    requires Enabled(s, e) && (e.MutexUnlock? || e.CondvarWait?)
    ensures var q := Queue(s.k, MutexQueue(m));
            OwnerOf(Apply(s, e).k.owner, m) ==
            if Unlocks(e, m) then (if q == [] then None else Some(q[0])) else OwnerOf(s.k.owner, m)
  {
    hide CondvarSleep;
    WaitsAreSame(s.k);
  }

  /**
   * The owner of a mutex changes in three ways only: an unlock hands it to the first waiter, an unlock
   * that finds nobody waiting frees it, and a lock that finds it free takes it.
   */
  lemma OwnerAfter(s: System, e: Event, m: MutexPtr)
    requires Enabled(s, e)
    ensures var q := Queue(s.k, MutexQueue(m));
            OwnerOf(Apply(s, e).k.owner, m) ==
            if Unlocks(e, m) then (if q == [] then None else Some(q[0]))
            else if Locks(s, e, m) && m !in s.k.owner then Some(s.k.current)
            else OwnerOf(s.k.owner, m)
  {
    hide Apply, Enabled;
    match e {
      case MutexLock(_) => OwnerOfLock(s, e, m);
      case CondvarWaitRelock => OwnerOfLock(s, e, m);
      case MutexUnlock(_) => OwnerOfUnlock(s, e, m);
      case CondvarWait(_, _) => OwnerOfUnlock(s, e, m);
      case _ => OwnersOfPlain(s, e);
    }
  }

  /** An unlock with nobody waiting leaves the mutex free, as at the start. */
  lemma UnlockFrees(s: System, e: Event, m: MutexPtr)
    requires Reachable(s) && Enabled(s, e) && Unlocks(e, m) && Queue(s.k, MutexQueue(m)) == []
    ensures m !in Apply(s, e).k.owner
  {
    hide Apply, Enabled, Reachable;
    OwnerAfter(s, e, m);
  }

  /** Locking a free mutex enters the critical section at once: no switch, no waiting. */
  lemma FreeMutexEntered(s: System, m: MutexPtr)
    requires Reachable(s) && Enabled(s, MutexLock(m)) && m !in s.k.owner
    ensures var s' := Apply(s, MutexLock(m));
            && (s.k.current, m) in s'.held && m in s'.k.owner && s'.k.owner[m] == s.k.current
            && !Selects(s, MutexLock(m)) && s'.k.current == s.k.current && PcOf(s') == User
            && s'.k.ready == s.k.ready && s'.k.state == s.k.state && s'.k.queue == s.k.queue
  {
  }

  /** A free mutex stays free until somebody locks it, over any run. */
  lemma {:induction false} FreeUntilLocked(s: System, es: seq<Event>, m: MutexPtr)
    requires Inv(s) && Legal(s, es) && m !in s.k.owner
    requires forall i | 0 <= i < |es| :: !Locks(Run(s, es[..i]), es[i], m)
    ensures m !in Run(s, es).k.owner
    decreases |es|
  {
    hide Inv, Apply, Enabled, Locks;
    if es != [] {
      assert es[..0] == [] && Run(s, es[..0]) == s;
      assert !Locks(s, es[0], m);
      if Unlocks(es[0], m) { UnlocksOwned(s, es[0], m); }
      OwnerAfter(s, es[0], m);
      EventKeepsInv(s, es[0]);
      forall i | 0 <= i < |es[1..]| ensures !Locks(Run(Apply(s, es[0]), es[1..][..i]), es[1..][i], m) {
        assert es[..i + 1][0] == es[0] && es[..i + 1][1..] == es[1..][..i];
        assert !Locks(Run(s, es[..i + 1]), es[i + 1], m);
      }
      FreeUntilLocked(Apply(s, es[0]), es[1..], m);
    }
  }

  lemma UnlocksOwned(s: System, e: Event, m: MutexPtr)
    requires Enabled(s, e) && Unlocks(e, m)
    ensures m in s.k.owner
  {
  }

  /** Every owner is a thread that was created at some time, never the idle thread. */
  lemma OwnersAreThreads(s: System, m: MutexPtr)
    requires Reachable(s) && m in s.k.owner
    ensures s.k.owner[m] in s.usedThreads && s.k.owner[m] != IDLE && s.k.owner[m] != NULL
  {
    ReachableInv(s);
  }

  // ----- detached threads -----

  lemma DetachedKept(s: System, e: Event)
    requires !e.ThreadJoin? && !e.ThreadJoinReturn? && !e.ReaperDrainAll? && !e.ThreadDetach?
    ensures Apply(s, e).k.detached == s.k.detached
  {
    hide Sleep, KillCurrent, Detach, WakeAll, Wake, CondvarSleep, Switch, Block, Unblock, Destroy, Drain,
      TaskState.SemaphoreAcquire, TaskState.SemaphoreRelease, TaskState.Tick, TaskState.Yield, TaskState.MutexLock,
      MutexRelease, TaskState.ThreadAdd, Create;
    SwitchesAreSame(s.k);
    WakesAreSame(s.k);
    LivesAreSame(s.k);
    WaitsAreSame(s.k);
    EndsAreSame(s.k);
  }

  lemma DetachedByJoin(s: System, e: Event, t: ThreadPtr)
    requires Enabled(s, e) && (e.ThreadJoin? || e.ThreadJoinReturn?)
    ensures t in Apply(s, e).k.detached <==> t in s.k.detached && !Frees(s, e, t)
  {
    hide Sleep, Destroy, Joined, InUser, IsThread;
    SwitchesAreSame(s.k);
    LivesAreSame(s.k);
  }

  lemma DetachedByReaper(s: System, t: ThreadPtr)
    ensures t in Apply(s, ReaperDrainAll).k.detached <==> t in s.k.detached && !Frees(s, ReaperDrainAll, t)
  {
    hide Destroy;
    LivesAreSame(s.k);
    hide Drain;
  }

  lemma DetachedByDetach(s: System, u: ThreadPtr, t: ThreadPtr)
    ensures t in Apply(s, ThreadDetach(u)).k.detached <==> t in s.k.detached || t == u
    ensures !Frees(s, ThreadDetach(u), t)
  {
    hide Detach;
    EndsAreSame(s.k);
  }

  /** thread_detach marks the thread, whatever its state; only its destruction takes the mark away. */
  lemma DetachedAfter(s: System, e: Event, t: ThreadPtr)
    requires Enabled(s, e)
    ensures t in Apply(s, e).k.detached <==> (t in s.k.detached || e == ThreadDetach(t)) && !Frees(s, e, t)
  {
    hide Apply, Enabled;
    match e {
      case ThreadJoin(_) => DetachedByJoin(s, e, t);
      case ThreadJoinReturn => DetachedByJoin(s, e, t);
      case ReaperDrainAll => DetachedByReaper(s, t);
      case ThreadDetach(u) => DetachedByDetach(s, u, t);
      case _ => DetachedKept(s, e);
    }
  }

  // ----- thread_block and thread_unblock -----

  /** Blocked, and in no list or queue from which another thread's call would take it. */
  ghost predicate Parked(k: Kernel, t: ThreadPtr) {
    t in k.state && k.state[t] == Blocked && t != IDLE && t != k.current && t !in k.ready && Unqueued(k.queue, t)
  }

  ghost predicate Unqueued(queue: Queues, t: ThreadPtr) {
    forall q :: t !in Waiters(queue, q)
  }

  lemma QueueGrows(queue: Queues, q: QueuePtr, u: ThreadPtr, t: ThreadPtr)
    requires Unqueued(queue, t) && u != t
    ensures Unqueued(queue[q := Waiters(queue, q) + [u]], t)
  {
    var queue' := queue[q := Waiters(queue, q) + [u]];
    forall r ensures t !in Waiters(queue', r) {
      assert t !in Waiters(queue, r);
    }
  }

  lemma QueueShrinks(queue: Queues, q: QueuePtr, ts: seq<ThreadPtr>, t: ThreadPtr)
    requires Unqueued(queue, t) && forall u | u in ts :: u in Waiters(queue, q)
    ensures Unqueued(queue[q := ts], t) && t !in Waiters(queue, q)
  {
    var queue' := queue[q := ts];
    forall r ensures t !in Waiters(queue', r) {
      assert t !in Waiters(queue, r);
    }
  }

  /** A thread parked stays so, unless it is handed over or unblocked by name. */
  ghost predicate KeepsParked(k: Kernel, k': Kernel, t: ThreadPtr) {
    Parked(k, t) ==> Parked(k', t)
  }

  lemma SwitchParks(k: Kernel, t: ThreadPtr)
    ensures KeepsParked(k, Switch(k), t)
  {
    hide IndexOf, Unqueued;
  }

  lemma SuspendParks(k: Kernel, t: ThreadPtr, st: ThreadState)
    requires NoDup(k.ready)
    ensures KeepsParked(k, Suspend(k, st), t)
  {
    hide Unqueued, Without, NoDup;
    WithoutMembers(k.ready, k.current);
  }

  lemma SleepParks(k: Kernel, q: QueuePtr, t: ThreadPtr)
    requires NoDup(k.ready)
    ensures KeepsParked(k, Sleep(k, q), t) && KeepsParked(k, Block(k), t)
  {
    EnqueueParks(k, q, t);
    SuspendParks(Enqueue(k, q, k.current), t, Blocked);
    SuspendParks(k, t, Blocked);
    SwitchParks(Suspend(Enqueue(k, q, k.current), Blocked), t);
    SwitchParks(Suspend(k, Blocked), t);
    hide Switch, Suspend, Enqueue, Parked;
  }

  lemma EnqueueParks(k: Kernel, q: QueuePtr, t: ThreadPtr)
    ensures KeepsParked(k, Enqueue(k, q, k.current), t)
  {
    hide Unqueued;
    if Parked(k, t) { QueueGrows(k.queue, q, k.current, t); }
  }

  lemma WakeParks(k: Kernel, q: QueuePtr, t: ThreadPtr)
    ensures KeepsParked(k, Wake(k, q), t) && KeepsParked(k, WakeAll(k, q), t)
  {
    hide Unqueued;
    if Parked(k, t) && Queue(k, q) != [] {
      QueueShrinks(k.queue, q, Queue(k, q)[1..], t);
      QueueShrinks(k.queue, q, [], t);
      assert Queue(k, q)[0] in Queue(k, q);
    }
  }

  lemma UnblockParks(k: Kernel, u: ThreadPtr, t: ThreadPtr)
    requires u != t
    ensures KeepsParked(k, Unblock(k, u), t)
  {
    hide Unqueued;
  }

  lemma ReleaseParks(k: Kernel, m: MutexPtr, t: ThreadPtr)
    ensures KeepsParked(k, MutexRelease(k, m), t) && KeepsParked(k, TaskState.MutexUnlock(k, m), t)
  {
    hide Unqueued;
    var q := MutexQueue(m);
    if Parked(k, t) && Queue(k, q) != [] {
      QueueShrinks(k.queue, q, Queue(k, q)[1..], t);
      assert Queue(k, q)[0] in Queue(k, q);
    }
  }

  lemma TerminateParks(k: Kernel, t: ThreadPtr)
    requires NoDup(k.ready)
    ensures KeepsParked(k, KillCurrent(k), t)
  {
    hide Parked, Switch, Suspend, Wake, WakeAll;
    var k1 := Suspend(k, Terminated);
    var k2 := WakeAll(k1, TerminationQueue(k.current));
    SuspendParks(k, t, Terminated);
    WakeParks(k1, TerminationQueue(k.current), t);
    ZombieParks(k2, k.current, t);
    WakeParks(k2.(zombies := k2.zombies + [k.current]), ReaperQueue, t);
    SwitchParks(Terminate(k), t);
  }

  lemma ZombieParks(k: Kernel, u: ThreadPtr, t: ThreadPtr)
    ensures KeepsParked(k, k.(zombies := k.zombies + [u]), t)
    ensures KeepsParked(k, k.(detached := k.detached + {u}), t)
  {
    hide Unqueued;
  }

  lemma DetachParks(k: Kernel, u: ThreadPtr, t: ThreadPtr)
    ensures KeepsParked(k, Detach(k, u), t)
  {
    hide Parked, Wake;
    var k1 := k.(detached := k.detached + {u});
    ZombieParks(k, u, t);
    ZombieParks(k1, u, t);
    WakeParks(k1.(zombies := k1.zombies + [u]), ReaperQueue, t);
  }

  lemma DestroyParks(k: Kernel, ts: set<ThreadPtr>, t: ThreadPtr)
    requires t !in ts
    ensures KeepsParked(k, Destroy(k, ts), t) && KeepsParked(k, Destroy(k, ts).(zombies := []), t)
  {
    hide Surviving, Unqueued;
  }

  lemma LivesPark(k: Kernel, t: ThreadPtr)
    ensures KeepsParked(k, TaskState.Tick(k), t) && KeepsParked(k, TaskState.Yield(k), t)
    ensures forall u, p | u != t :: KeepsParked(k, Create(k, u, p), t)
    ensures forall u | u != t :: KeepsParked(k, TaskState.ThreadAdd(k, u), t)
  {
    SwitchParks(k, t);
    hide Switch, Unqueued;
  }

  lemma ObjectsPark(k: Kernel, k': Kernel, t: ThreadPtr)
    requires k'.state == k.state && k'.ready == k.ready && k'.queue == k.queue && k'.current == k.current
    ensures KeepsParked(k, k', t)
  {
    hide Unqueued;
  }

  lemma WaitParks(k: Kernel, c: CondvarPtr, m: MutexPtr, t: ThreadPtr)
    requires NoDup(TaskState.MutexUnlock(k, m).ready)
    ensures KeepsParked(k, CondvarSleep(k, c, m), t)
  {
    hide Parked, Sleep, TaskState.MutexUnlock;
    ReleaseParks(k, m, t);
    SleepParks(TaskState.MutexUnlock(k, m), CondvarQueue(c), t);
  }

  lemma ParkedOps(k: Kernel, t: ThreadPtr)
    requires NoDup(k.ready)
    ensures forall q ::
              KeepsParked(k, Sleep(k, q), t) && KeepsParked(k, Wake(k, q), t) && KeepsParked(k, WakeAll(k, q), t)
    ensures KeepsParked(k, Block(k), t) && KeepsParked(k, KillCurrent(k), t)
    ensures forall m :: KeepsParked(k, MutexRelease(k, m), t)
    ensures forall u :: KeepsParked(k, Detach(k, u), t) && (u != t ==> KeepsParked(k, Unblock(k, u), t))
    ensures forall ts: set<ThreadPtr> | t !in ts :: KeepsParked(k, Destroy(k, ts), t)
  {
    hide KeepsParked, Sleep, Wake, WakeAll, Block, KillCurrent, MutexRelease, Detach, Unblock, Destroy;
    TerminateParks(k, t);
    forall q
      ensures KeepsParked(k, Sleep(k, q), t) && KeepsParked(k, Wake(k, q), t) && KeepsParked(k, WakeAll(k, q), t)
    {
      SleepParks(k, q, t);
      WakeParks(k, q, t);
    }
    SleepParks(k, ReaperQueue, t);
    forall m ensures KeepsParked(k, MutexRelease(k, m), t) { ReleaseParks(k, m, t); }
    forall u ensures KeepsParked(k, Detach(k, u), t) && (u != t ==> KeepsParked(k, Unblock(k, u), t)) {
      DetachParks(k, u, t);
      if u != t { UnblockParks(k, u, t); }
    }
    forall ts: set<ThreadPtr> | t !in ts ensures KeepsParked(k, Destroy(k, ts), t) { DestroyParks(k, ts, t); }
  }

  /** In thread_block, and not unblocked yet. */
  ghost predicate SelfParked(s: System, t: ThreadPtr) {
    Parked(s.k, t) && t in s.pc && s.pc[t] == SelfBlocked
  }

  /** What rules a self-blocked thread out as the target of other calls. */
  lemma NotTouched(s: System, e: Event, t: ThreadPtr)
    requires Inv(s) && Enabled(s, e) && SelfParked(s, t)
    ensures PcOf(s).Handoff? ==> PcOf(s).target != t
    ensures (e.ThreadCreate? ==> e.thread != t) && (e.ThreadAdd? ==> e.thread != t) && !Frees(s, e, t)
    ensures NoDup(s.k.ready) && forall m :: NoDup(TaskState.MutexUnlock(s.k, m).ready)
  {
    hide Inv, Enabled, Frees, TaskState.MutexUnlock, Unqueued;
    ReadyNoDup(s);
    ThreadsHavePcs(s);
    forall m ensures NoDup(TaskState.MutexUnlock(s.k, m).ready) { UnlockedReady(s, m); }
    if PcOf(s).Handoff? {
      InThread(s);
      HandoffOwner(s, s.k.current);
    }
    NewOrUnlinked(s, e, t);
    if Frees(s, e, t) { FreedIsTerminated(s, e, t); }
  }

  lemma NewOrUnlinked(s: System, e: Event, t: ThreadPtr)
    requires Inv(s) && Enabled(s, e) && t in s.pc && s.pc[t] == SelfBlocked
    ensures (e.ThreadCreate? ==> e.thread != t) && (e.ThreadAdd? ==> e.thread != t)
  {
    assert PcSuits(s.pc[t], s.k.state[t], WaitOf(s.k.waitQueue, t), t in s.handoff, t in s.k.linked, t == s.k.reaper);
  }

  lemma ParkedInLocks(s: System, e: Event, t: ThreadPtr)
    requires Inv(s) && Enabled(s, e) && SelfParked(s, t)
    requires e.MutexLock? || e.CondvarWaitRelock? || e.MutexUnlock? || e.MutexUnlockWake? || e.CondvarWait?
    ensures Parked(Apply(s, e).k, t)
  {
    hide Inv, Parked, Sleep, MutexRelease, Unblock, CondvarSleep, TaskState.MutexUnlock, NoDup, Queue;
    NotTouched(s, e, t);
    ParkedOps(s.k, t);
    match e {
      case CondvarWait(c, m) => WaitParks(s.k, c, m, t);
      case MutexLock(m) => if m !in s.k.owner { ObjectsPark(s.k, Apply(s, e).k, t); }
      case CondvarWaitRelock => if PcOf(s).mutex !in s.k.owner { ObjectsPark(s.k, Apply(s, e).k, t); }
      case _ =>
    }
  }

  lemma ParkedInSemaphores(s: System, e: Event, t: ThreadPtr)
    requires Inv(s) && Enabled(s, e) && SelfParked(s, t) && (e.SemaphoreAcquire? || e.SemaphoreRelease?)
    ensures Parked(Apply(s, e).k, t)
  {
    hide Inv, Parked, Sleep, Wake, NoDup, Queue;
    NotTouched(s, e, t);
    ParkedOps(s.k, t);
    if Apply(s, e).k.queue == s.k.queue && Apply(s, e).k.state == s.k.state && Apply(s, e).k.ready == s.k.ready
       && Apply(s, e).k.current == s.k.current {
      ObjectsPark(s.k, Apply(s, e).k, t);
    }
  }

  lemma ParkedInJoins(s: System, e: Event, t: ThreadPtr)
    requires Inv(s) && Enabled(s, e) && SelfParked(s, t)
    requires e.ThreadJoin? || e.ThreadJoinReturn? || e.ReaperDrainAll?
    ensures Parked(Apply(s, e).k, t)
  {
    hide Inv, Parked, Sleep, Destroy, NoDup, Enabled;
    NotTouched(s, e, t);
    ParkedOps(s.k, t);
    if e.ReaperDrainAll? { DestroyParks(s.k, (set u | u in s.k.zombies), t); }
  }

  lemma ParkedInCreation(s: System, e: Event, t: ThreadPtr)
    requires Inv(s) && Enabled(s, e) && SelfParked(s, t)
    requires e.ProcessCreate? || e.ThreadCreate? || e.ThreadAdd?
    ensures Parked(Apply(s, e).k, t)
  {
    hide Inv, Parked, Create, TaskState.ThreadAdd, NoDup, Enabled;
    NotTouched(s, e, t);
    LivesPark(s.k, t);
    if e.ProcessCreate? { ObjectsPark(s.k, Apply(s, e).k, t); }
  }

  lemma ParkedInPlain(s: System, e: Event, t: ThreadPtr)
    requires Inv(s) && Enabled(s, e) && SelfParked(s, t) && e != ThreadUnblock(t)
    requires e.Tick? || e.Yield? || e.ThreadBlock? || e.ThreadBlockReturn? || e.ThreadUnblock? || e.MutexLockReturn?
             || e.CondvarWaitResume? || e.SemaphoreAcquireReturn? || e.ReaperResume? || e.CondvarSignal?
             || e.CondvarBroadcast? || e.ThreadDetach? || e.ThreadExit? || e.ReaperSleep?
    ensures Parked(Apply(s, e).k, t)
  {
    hide Inv, Parked, Sleep, Wake, WakeAll, Block, KillCurrent, Detach, Unblock, TaskState.Tick, TaskState.Yield, NoDup,
      Joined;
    NotTouched(s, e, t);
    ParkedOps(s.k, t);
    LivesPark(s.k, t);
  }

  lemma ParkedAfter(s: System, e: Event, t: ThreadPtr)
    requires Inv(s) && Enabled(s, e) && SelfParked(s, t) && e != ThreadUnblock(t)
    ensures SelfParked(Apply(s, e), t)
  {
    hide Inv, Parked, Apply, Enabled;
    NotTouched(s, e, t);
    EventKeepsInv(s, e);
    ThreadsHavePcs(Apply(s, e));
    assert t != s.k.current && t != IDLE by { ParkedElsewhere(s.k, t); }
    PcOfOthers(s, e, t);
    match e {
      case MutexLock(_) => ParkedInLocks(s, e, t);
      case CondvarWaitRelock => ParkedInLocks(s, e, t);
      case MutexUnlock(_) => ParkedInLocks(s, e, t);
      case MutexUnlockWake => ParkedInLocks(s, e, t);
      case CondvarWait(_, _) => ParkedInLocks(s, e, t);
      case SemaphoreAcquire(_) => ParkedInSemaphores(s, e, t);
      case SemaphoreRelease(_) => ParkedInSemaphores(s, e, t);
      case ThreadJoin(_) => ParkedInJoins(s, e, t);
      case ThreadJoinReturn => ParkedInJoins(s, e, t);
      case ReaperDrainAll => ParkedInJoins(s, e, t);
      case ProcessCreate(_) => ParkedInCreation(s, e, t);
      case ThreadCreate(_, _) => ParkedInCreation(s, e, t);
      case ThreadAdd(_) => ParkedInCreation(s, e, t);
      case _ => ParkedInPlain(s, e, t);
    }
    ParkedExists(Apply(s, e).k, t);
  }

  lemma ParkedElsewhere(k: Kernel, t: ThreadPtr)
    requires Parked(k, t)
    ensures t != k.current && t != IDLE
  {
  }

  lemma ParkedExists(k: Kernel, t: ThreadPtr)
    requires Parked(k, t)
    ensures t in k.state && t != IDLE
  {
  }

  /** thread_block takes the caller off the processor and off the ready list. */
  lemma BlockParks(s: System)
    requires Inv(s) && Enabled(s, ThreadBlock)
    ensures SelfParked(Apply(s, ThreadBlock), s.k.current)
  {
    hide Inv, Successor, Rescheduled, Unqueued;
    InThread(s);
    CurrentFree(s);
    ReadyNoDup(s);
    EventKeepsInv(s, ThreadBlock);
    ThreadsHavePcs(Apply(s, ThreadBlock));
    CurrentUnqueued(s);
    BlockedKernel(s.k);
  }

  lemma CurrentUnqueued(s: System)
    requires Inv(s) && s.k.current !in s.k.waitQueue
    ensures Unqueued(s.k.queue, s.k.current)
  {
  }

  lemma BlockedKernel(k: Kernel)
    requires NoDup(k.ready) && k.current in k.state && k.current != IDLE && Unqueued(k.queue, k.current)
    ensures Parked(Block(k), k.current)
  {
    hide Unqueued, NoDup, Without;
    WithoutMembers(k.ready, k.current);
  }

  /** A thread that blocked itself does not run, and is not woken, before somebody unblocks it by name. */
  lemma {:induction false} BlockedUntilUnblocked(s: System, es: seq<Event>, t: ThreadPtr)
    requires Inv(s) && Legal(s, es) && SelfParked(s, t) && ThreadUnblock(t) !in es
    ensures SelfParked(Run(s, es), t)
    decreases |es|
  {
    hide Inv, Apply, Enabled, Parked;
    if es != [] {
      ParkedAfter(s, es[0], t);
      EventKeepsInv(s, es[0]);
      assert ThreadUnblock(t) !in es[1..];
      BlockedUntilUnblocked(Apply(s, es[0]), es[1..], t);
    }
  }

  /** From the call of thread_block on, over any run. */
  lemma BlockLasts(s: System, es: seq<Event>)
    requires Reachable(s) && Enabled(s, ThreadBlock) && Legal(Apply(s, ThreadBlock), es)
    requires ThreadUnblock(s.k.current) !in es
    ensures var k, t := Run(Apply(s, ThreadBlock), es).k, s.k.current;
            t in k.state && k.state[t] == Blocked && t != k.current && t !in k.ready
  {
    hide Inv, Apply, Enabled, Reachable;
    ReachableInv(s);
    BlockParks(s);
    EventKeepsInv(s, ThreadBlock);
    BlockedUntilUnblocked(Apply(s, ThreadBlock), es, s.k.current);
  }

  /** thread_unblock makes the thread the last of the ready ones. */
  lemma UnblockReadies(s: System, t: ThreadPtr)
    requires Enabled(s, ThreadUnblock(t))
    ensures var k' := Apply(s, ThreadUnblock(t)).k;
            k'.ready == s.k.ready + [t] && t in k'.state && k'.state[t] == Ready && k'.current == s.k.current
  {
  }

  // ----- new processes and threads -----

  /** Creating a process adds it to the list and changes nothing else. */
  lemma ProcessCreated(s: System, p: ProcessPtr)
    ensures Apply(s, ProcessCreate(p)).k == s.k.(processes := s.k.processes + {p})
  {
  }

  /** A thread starts ready, in its process, but in no list: it cannot run before it is added. */
  lemma ThreadCreated(s: System, t: ThreadPtr, p: ProcessPtr)
    requires Reachable(s) && Enabled(s, ThreadCreate(t, p))
    ensures var k' := Apply(s, ThreadCreate(t, p)).k;
            && t in k'.state && k'.state[t] == Ready && t in k'.process && k'.process[t] == p
            && t !in k'.ready && t !in k'.linked && t !in k'.detached && k'.ready == s.k.ready
  {
    hide Reachable, Inv;
    ReachableInv(s);
    FreshThread(s, t, p);
    FreshNowhere(s, t);
    hide Enabled, Apply;
  }

  lemma FreshThread(s: System, t: ThreadPtr, p: ProcessPtr)
    ensures Enabled(s, ThreadCreate(t, p)) ==> t !in s.usedThreads
    ensures Apply(s, ThreadCreate(t, p)).k == Create(s.k, t, p)
  {
    hide Create;
  }

  /** thread_add makes it the last of the ready ones, and a member of its process. */
  lemma ThreadAdded(s: System, t: ThreadPtr)
    requires Enabled(s, Event.ThreadAdd(t))
    ensures var k' := Apply(s, Event.ThreadAdd(t)).k;
            k'.ready == s.k.ready + [t] && k'.linked == s.k.linked + {t} && k'.state == s.k.state
  {
  }

  lemma FreshNowhere(s: System, t: ThreadPtr)
    requires Inv(s) && t !in s.usedThreads
    ensures t !in s.k.ready && t !in s.k.linked && t !in s.k.detached
  {
  }
}
