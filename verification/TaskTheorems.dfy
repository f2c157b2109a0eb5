/** What holds in every reachable state, and over every run, of the interleaved system. */
module TaskTheorems {
  import opened Sequences
  import opened TaskState
  import opened TaskSystem
  import opened TaskInvariant
  import opened TaskProofs
  import opened TaskSteps
  import opened TaskMutexSteps
  import opened TaskRuns
  import opened TaskQueues

  ghost predicate ReachedBy(
    s: System, count: map<SemaphorePtr, nat>, reaper: ThreadPtr, p: ProcessPtr, es: seq<Event>)
  {
    && reaper != NULL && reaper != IDLE
    && Legal(Initial(count, reaper, p), es) && s == Run(Initial(count, reaper, p), es)
  }

  /** Some legal run from the state that the boot code leaves ends in s. */
  ghost predicate Reachable(s: System) {
    exists count, reaper, p, es :: ReachedBy(s, count, reaper, p, es)
  }

  lemma ReachableInv(s: System)
    requires Reachable(s)
    ensures Inv(s)
  {
    hide Inv, Initial, Legal, Run;
    var count, reaper, p, es :| ReachedBy(s, count, reaper, p, es);
    InitialInv(count, reaper, p);
    RunKeepsInv(Initial(count, reaper, p), es);
  }

  lemma {:induction false} RunSplit(s: System, es: seq<Event>, fs: seq<Event>)
    ensures Run(s, es + fs) == Run(Run(s, es), fs)
    ensures Legal(s, es + fs) <==> Legal(s, es) && Legal(Run(s, es), fs)
    decreases |es|
  {
    hide Apply, Enabled;
    if es == [] {
      assert es + fs == fs;
    } else {
      assert (es + fs)[1..] == es[1..] + fs;
      RunSplit(Apply(s, es[0]), es[1..], fs);
    }
  }

  lemma ReachableStep(s: System, e: Event)
    requires Reachable(s) && Enabled(s, e)
    ensures Reachable(Apply(s, e))
  {
    hide Apply, Enabled, Initial;
    var count, reaper, p, es :| ReachedBy(s, count, reaper, p, es);
    RunSplit(Initial(count, reaper, p), es, [e]);
    assert Run(s, [e]) == Apply(s, e);
    assert ReachedBy(Apply(s, e), count, reaper, p, es + [e]);
  }

  // ----- scheduling and waiting -----

  lemma ReadyListIsExact(s: System)
    requires Reachable(s)
    ensures NoDup(s.k.ready) && IDLE !in s.k.ready
    ensures forall t :: t in s.k.ready <==>
              t in s.k.linked && t in s.k.state && t != IDLE && (s.k.state[t] == Ready || s.k.state[t] == Running)
    ensures 1 <= s.k.quantum <= SCHEDULER_QUANTUM_TICKS
  {
    hide Inv, KernelInv, CoreInv, QueueInv, WaitingInv, ObjectInv, ThreadsInv, DetachedInv, ZombieInv, JoinQueueInv,
      PcInv, HandoffInv, MutexInv, OwnersKnown, JoinInv, ProcessInv, Reachable;
    ReachableInv(s);
    InvParts(s);
    CoreParts(s.k);
    assert forall t :: t in s.k.ready <==> Runnable(s.k.state, s.k.linked, t);
  }

  /** The current thread runs, and no other thread but the idle one is RUNNING. */
  lemma OnlyCurrentRuns(s: System, t: ThreadPtr)
    requires Reachable(s) && IsThread(s, t)
    ensures s.k.state[t] == Running <==> t == s.k.current
  {
    ReachableInv(s);
  }

  lemma InAtMostOneQueue(s: System, t: ThreadPtr, q: QueuePtr, r: QueuePtr)
    requires Reachable(s) && t in Queue(s.k, q)
    ensures t in s.k.waitQueue && s.k.waitQueue[t] == q && NoDup(Queue(s.k, q))
    ensures IsThread(s, t) && s.k.state[t] == Blocked && t !in s.k.ready
    ensures t in Queue(s.k, r) ==> r == q
  {
    ReachableInv(s);
  }

  ghost predicate HandedTo(s: System, u: ThreadPtr, t: ThreadPtr) {
    u in s.pc && s.pc[u].Handoff? && s.pc[u].target == t
  }

  /**
   * A blocked thread is in a wait queue, or blocked itself, or is the new owner that exactly one
   * mutex_unlock has yet to unblock; and only one of the three.
   */
  lemma BlockedForOneReason(s: System, t: ThreadPtr)
    requires Reachable(s) && IsThread(s, t) && s.k.state[t] == Blocked
    ensures t in s.pc
    ensures var queued, own, handed := t in s.k.waitQueue, s.pc[t] == SelfBlocked, exists u :: HandedTo(s, u, t);
            && (queued || own || handed)
            && !(queued && own) && !(queued && handed) && !(own && handed)
    ensures forall u, v | HandedTo(s, u, t) && HandedTo(s, v, t) :: u == v
  {
    hide Inv, KernelInv, CoreInv, PcInv, HandoffInv, MutexInv, OwnersKnown, JoinInv, ProcessInv, Reachable;
    ReachableInv(s);
    InvParts(s);
    BlockedReasons(s.pc, s.k.state, s.k.waitQueue, s.handoff, s.k.linked, s.k.reaper, t);
    forall u | HandedTo(s, u, t) ensures t in s.handoff && s.handoff[t] == u {
      HandoffIsKnown(s.pc, s.k.state, s.k.waitQueue, s.handoff, u);
    }
    if t in s.handoff {
      HandoffIsLive(s.pc, s.k.state, s.k.waitQueue, s.handoff, t);
      assert HandedTo(s, s.handoff[t], t);
    }
  }

  lemma BlockedReasons(
    pc: Pcs, state: States, waits: Waits, handoff: Handoffs, linked: set<ThreadPtr>, reaper: ThreadPtr, t: ThreadPtr)
    requires PcInv(pc, state, waits, handoff, linked, reaper) && HandoffInv(pc, state, waits, handoff)
    requires t in state && t != IDLE && state[t] == Blocked
    ensures t in pc && (t in waits || pc[t] == SelfBlocked || t in handoff)
    ensures (t in waits ==> QueueOf(pc[t]) == Some(waits[t]) && t !in handoff) && (t in handoff ==> pc[t].InLock?)
  {
    assert PcSuits(pc[t], state[t], WaitOf(waits, t), t in handoff, t in linked, t == reaper);
  }

  lemma HandoffIsKnown(pc: Pcs, state: States, waits: Waits, handoff: Handoffs, u: ThreadPtr)
    requires HandoffInv(pc, state, waits, handoff) && u in pc && pc[u].Handoff?
    ensures pc[u].target in handoff && handoff[pc[u].target] == u
  {
  }

  lemma HandoffIsLive(pc: Pcs, state: States, waits: Waits, handoff: Handoffs, t: ThreadPtr)
    requires HandoffInv(pc, state, waits, handoff) && t in handoff
    ensures handoff[t] in pc && pc[handoff[t]].Handoff? && pc[handoff[t]].target == t
  {
  }

  lemma TerminatedIsNowhere(s: System, t: ThreadPtr)
    requires Reachable(s) && IsThread(s, t) && s.k.state[t] == Terminated
    ensures t !in s.k.ready && t !in s.k.waitQueue && (forall q :: t !in Queue(s.k, q)) && t != s.k.current
    ensures Queue(s.k, TerminationQueue(t)) == []
  {
    ReachableInv(s);
  }

  // ----- mutexes -----

  /** Past mutex_lock and not yet past mutex_unlock, the unblocking of the next owner included. */
  ghost predicate Inside(s: System, t: ThreadPtr, m: MutexPtr) {
    (t, m) in s.held || (t in s.pc && s.pc[t].Handoff? && s.pc[t].mutex == m)
  }

  lemma HandoffOwner(s: System, u: ThreadPtr)
    requires Inv(s) && u in s.pc && s.pc[u].Handoff?
    ensures var x, m := s.pc[u].target, s.pc[u].mutex;
            && x in s.handoff && s.handoff[x] == u && x in s.pc && s.pc[x].InLock? && s.pc[x].mutex == m
            && m in s.k.owner && s.k.owner[m] == x && (x, m) !in s.held
  {
  }

  lemma MutualExclusion(s: System, t: ThreadPtr, u: ThreadPtr, m: MutexPtr)
    requires Reachable(s) && Inside(s, t, m) && Inside(s, u, m)
    ensures t == u
  {
    ReachableInv(s);
    if t in s.pc && s.pc[t].Handoff? { HandoffOwner(s, t); }
    if u in s.pc && s.pc[u].Handoff? { HandoffOwner(s, u); }
  }

  /** Waiters imply an owner, and a thread woken in mutex_lock already is the owner. */
  lemma WaitersHaveOwner(s: System, m: MutexPtr)
    requires Reachable(s)
    ensures Queue(s.k, MutexQueue(m)) != [] ==> m in s.k.owner
    ensures forall t | t in s.pc && s.pc[t].InLock? && s.pc[t].mutex == m && t !in s.k.waitQueue ::
              m in s.k.owner && s.k.owner[m] == t
  {
    ReachableInv(s);
  }

  /** The owner of a mutex whose thread still lives has not left the critical section. */
  lemma OwnerHolds(s: System, m: MutexPtr)
    requires Reachable(s) && m in s.k.owner && s.k.owner[m] == s.k.current && PcOf(s) == User
    ensures (s.k.current, m) in s.held
  {
    ReachableInv(s);
    InThread(s);
  }

  predicate Unlocks(e: Event, m: MutexPtr) {
    e == MutexUnlock(m) || (e.CondvarWait? && e.mutex == m)
  }

  ghost function UnlockCount(es: seq<Event>, m: MutexPtr): nat {
    if es == [] then 0 else (if Unlocks(es[0], m) then 1 else 0) + UnlockCount(es[1..], m)
  }

  lemma UnlockGrants(s: System, e: Event, m: MutexPtr)
    requires Unlocks(e, m) && Queue(s.k, MutexQueue(m)) != []
    ensures Departed(s, e, MutexQueue(m)) == [Queue(s.k, MutexQueue(m))[0]]
    ensures m in Apply(s, e).k.owner && Apply(s, e).k.owner[m] == Queue(s.k, MutexQueue(m))[0]
  {
    hide Destroy, Terminate, Drain;
    if e.CondvarWait? {
      QueuesOfWait(s.k, e.condvar, m, MutexQueue(m));
    }
  }

  /**
   * Ownership follows arrival order: while k threads are ahead of t, each unlock moves t up by
   * one and nothing else does; the unlock that finds t at the front makes it the owner.
   */
  lemma {:induction false} GrantedInArrivalOrder(s: System, es: seq<Event>, m: MutexPtr, k: nat)
    requires k < |Queue(s.k, MutexQueue(m))| && UnlockCount(es, m) <= k
    ensures var q, n := Queue(Run(s, es).k, MutexQueue(m)), UnlockCount(es, m);
            k - n < |q| && q[k - n] == Queue(s.k, MutexQueue(m))[k]
    ensures forall e | Unlocks(e, m) && UnlockCount(es, m) == k ::
              var s' := Apply(Run(s, es), e);
              m in s'.k.owner && s'.k.owner[m] == Queue(s.k, MutexQueue(m))[k]
    decreases |es|
  {
    hide Apply, Arrived, Queue;
    var q := MutexQueue(m);
    if es == [] {
      forall e | Unlocks(e, m) && k == 0
        ensures m in Apply(s, e).k.owner && Apply(s, e).k.owner[m] == Queue(s.k, q)[0]
      {
        UnlockGrants(s, e, m);
      }
    } else {
      var s1 := Apply(s, es[0]);
      QueueStep(s, es[0], q);
      if Unlocks(es[0], m) {
        UnlockGrants(s, es[0], m);
        GrantedInArrivalOrder(s1, es[1..], m, k - 1);
      } else {
        assert Departed(s, es[0], q) == [];
        GrantedInArrivalOrder(s1, es[1..], m, k);
      }
    }
  }

  // ----- condition variables -----

  /** A blocked thread in condvar_wait is in the queue: none has released the mutex but not enqueued. */
  lemma WaiterIsQueued(s: System, t: ThreadPtr)
    requires Reachable(s) && IsThread(s, t) && t in s.pc && s.pc[t].InWait? && s.k.state[t] == Blocked
    ensures t in Queue(s.k, CondvarQueue(s.pc[t].condvar))
  {
    hide Inv, KernelInv, CoreInv, ReadyInv, RunningInv, WaitingInv, ObjectInv, ThreadsInv, DetachedInv, PcInv,
      HandoffInv, MutexInv, OwnersKnown, JoinInv, ProcessInv, Reachable;
    ReachableInv(s);
    InvParts(s);
    CoreParts(s.k);
    BlockedReasons(s.pc, s.k.state, s.k.waitQueue, s.handoff, s.k.linked, s.k.reaper, t);
  }

  /** An event moves the program counters of the current thread, of new ones and of destroyed ones. */
  lemma PcOfOthers(s: System, e: Event, t: ThreadPtr)
    requires t in s.pc && t != s.k.current && (e.ThreadCreate? ==> t != e.thread)
    ensures t in Apply(s, e).pc ==> Apply(s, e).pc[t] == s.pc[t]
  {
    hide Sleep, Terminate, KillCurrent, Detach, Destroy, Drain, WakeAll, Wake, CondvarSleep,
      TaskState.SemaphoreAcquire, TaskState.SemaphoreRelease, Switch, Block, Unblock, TaskState.Tick,
      TaskState.Yield, TaskState.MutexLock, MutexRelease, TaskState.ThreadAdd, Create;
  }

  lemma QueuedThread(s: System, t: ThreadPtr, q: QueuePtr)
    requires Inv(s) && t in Queue(s.k, q)
    ensures t in s.pc && t != s.k.current && QueueOf(s.pc[t]) == Some(q) && t in s.usedThreads
  {
    SleepersKnown(s.pc, s.k.state, s.k.waitQueue, s.handoff, s.k.linked, s.k.reaper);
  }

  lemma SleepersKnown(pc: Pcs, state: States, waits: Waits, handoff: Handoffs, linked: set<ThreadPtr>,
                      reaper: ThreadPtr)
    requires PcInv(pc, state, waits, handoff, linked, reaper) && WaitingInv(waits, state)
    ensures forall u | u in waits :: u in pc && QueueOf(pc[u]) == Some(waits[u])
  {
    forall u | u in waits ensures u in pc && QueueOf(pc[u]) == Some(waits[u]) {
      assert PcSuits(pc[u], state[u], WaitOf(waits, u), u in handoff, u in linked, u == reaper);
    }
  }

  /** Until it leaves the queue a sleeper stays in its call: nobody returns without being woken. */
  lemma {:induction false} SleepersStay(s: System, es: seq<Event>, q: QueuePtr, t: ThreadPtr)
    requires Inv(s) && Legal(s, es) && t in Queue(s.k, q) && t !in DepartedIn(s, es, q)
    ensures t in Queue(Run(s, es).k, q) && t in s.pc && t in Run(s, es).pc && Run(s, es).pc[t] == s.pc[t]
    decreases |es|
  {
    hide Inv, Apply, Enabled, Departed, Arrived, Queue;
    QueuedThread(s, t, q);
    if es != [] {
      var s1 := Apply(s, es[0]);
      EventKeepsInv(s, es[0]);
      QueueStep(s, es[0], q);
      StillQueued(Queue(s.k, q), Departed(s, es[0], q), Arrived(s, es[0], q), t);
      QueuedThread(s1, t, q);
      CreatedIsFresh(s, es[0], t);
      PcOfOthers(s, es[0], t);
      SleepersStay(s1, es[1..], q, t);
    }
  }

  lemma CreatedIsFresh(s: System, e: Event, t: ThreadPtr)
    requires Enabled(s, e) && t in s.usedThreads
    ensures e.ThreadCreate? ==> e.thread != t
  {
  }

  lemma StillQueued(ts: seq<ThreadPtr>, gone: seq<ThreadPtr>, more: seq<ThreadPtr>, t: ThreadPtr)
    requires gone <= ts && t in ts && t !in gone
    ensures t in ts[|gone|..] + more
  {
    var i :| 0 <= i < |ts| && ts[i] == t;
    assert i >= |gone|;
    assert (ts[|gone|..] + more)[i - |gone|] == t;
  }

  /**
   * No lost wakeup: a thread that called condvar_wait comes out of that state only through a signal
   * or broadcast on its condition variable that took it off the queue.
   */
  lemma WaitEndsBySignal(s: System, es: seq<Event>, t: ThreadPtr, c: CondvarPtr, m: MutexPtr)
    requires Reachable(s) && Legal(s, es) && t in s.pc && s.pc[t] == InWait(c, m) && t in Queue(s.k, CondvarQueue(c))
    requires t in Run(s, es).pc ==> Run(s, es).pc[t] != InWait(c, m)
    ensures exists i :: 0 <= i < |es| && (es[i] == CondvarSignal(c) || es[i] == CondvarBroadcast(c)) &&
              t in Departed(Run(s, es[..i]), es[i], CondvarQueue(c))
  {
    hide Inv, Reachable, Apply, Departed, Queue;
    ReachableInv(s);
    if t !in DepartedIn(s, es, CondvarQueue(c)) {
      SleepersStay(s, es, CondvarQueue(c), t);
    } else {
      var i := DepartureIndex(s, es, CondvarQueue(c), t);
      DepartsBySignal(Run(s, es[..i]), es[i], c, t);
    }
  }

  lemma DepartsBySignal(s: System, e: Event, c: CondvarPtr, t: ThreadPtr)
    requires t in Departed(s, e, CondvarQueue(c))
    ensures e == CondvarSignal(c) || e == CondvarBroadcast(c)
  {
  }

  lemma {:induction false} DepartureIndex(s: System, es: seq<Event>, q: QueuePtr, t: ThreadPtr) returns (i: nat)
    requires t in DepartedIn(s, es, q)
    ensures i < |es| && t in Departed(Run(s, es[..i]), es[i], q)
    decreases |es|
  {
    hide Departed, Apply;
    if t in Departed(s, es[0], q) {
      i := 0;
    } else {
      var j := DepartureIndex(Apply(s, es[0]), es[1..], q, t);
      i := j + 1;
      assert es[..i][0] == es[0] && es[..i][1..] == es[1..][..j];
    }
  }

  /** condvar_signal takes the oldest waiter off the queue, condvar_broadcast all of them. */
  lemma SignalTakesOldest(s: System, c: CondvarPtr)
    requires Reachable(s)
    ensures var q := Queue(s.k, CondvarQueue(c));
            && Queue(Apply(s, CondvarSignal(c)).k, CondvarQueue(c)) == (if q == [] then [] else q[1..])
            && Queue(Apply(s, CondvarBroadcast(c)).k, CondvarQueue(c)) == []
            && Apply(s, CondvarSignal(c)).k.ready == s.k.ready + (if q == [] then [] else [q[0]])
            && Apply(s, CondvarBroadcast(c)).k.ready == s.k.ready + q
  {
    QueuesOfWake(s.k, CondvarQueue(c), CondvarQueue(c));
  }

  predicate InCondvarWait(pc: Pc) {
    pc.InWait? || pc.Relock? || (pc.InLock? && pc.inWait)
  }

  /** condvar_wait returns holding the mutex it was called with. */
  lemma WaitReturnsHolding(s: System, e: Event, t: ThreadPtr)
    requires Reachable(s) && Enabled(s, e) && t in s.pc && InCondvarWait(s.pc[t])
    requires t in Apply(s, e).pc && Apply(s, e).pc[t] == User
    ensures var s', m := Apply(s, e), s.pc[t].mutex;
            (t, m) in s'.held && m in s'.k.owner && s'.k.owner[m] == t
  {
    ReachableInv(s);
    assert t in s.usedThreads;
    CreatedIsFresh(s, e, t);
    if t != s.k.current {
      PcOfOthers(s, e, t);
    } else {
      WaitReturn(s, e);
    }
  }

  lemma WaitReturn(s: System, e: Event)
    requires Inv(s) && Enabled(s, e) && s.k.current in s.pc && InCondvarWait(PcOf(s))
    requires s.k.current in Apply(s, e).pc && Apply(s, e).pc[s.k.current] == User
    ensures var s', m := Apply(s, e), PcOf(s).mutex;
            (s.k.current, m) in s'.held && m in s'.k.owner && s'.k.owner[m] == s.k.current
  {
    hide Inv, Enabled, Sleep, Terminate, KillCurrent, Detach, Destroy, Drain, WakeAll, Wake, CondvarSleep,
      TaskState.SemaphoreAcquire, TaskState.SemaphoreRelease, Switch, Block, Unblock, TaskState.Tick,
      TaskState.Yield, MutexRelease, TaskState.ThreadAdd, Create;
    InThread(s);
    StepsOfWait(s, e);
    if e == MutexLockReturn {
      ReturnGranted(s, PcOf(s).mutex);
    }
  }

  lemma StepsOfWait(s: System, e: Event)
    requires Enabled(s, e) && InCondvarWait(PcOf(s)) && s.k.current != IDLE
    ensures e == MutexLockReturn || e == CondvarWaitRelock || e == CondvarWaitResume || e == Event.Tick
  {
  }

  lemma ReturnGranted(s: System, m: MutexPtr)
    requires Inv(s) && s.k.current != IDLE && PcOf(s).InLock? && PcOf(s).mutex == m
    ensures m in s.k.owner && s.k.owner[m] == s.k.current
  {
    CurrentFree(s);
  }
}
