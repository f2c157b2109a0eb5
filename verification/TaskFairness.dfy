/**
 * Starvation freedom. scheduler_next walks the ready list in a circle but restarts at the front
 * when the outgoing thread left the list, so a thread's position alone does not bound its wait.
 */
module TaskFairness {
  import opened Sequences
  import opened TaskState
  import opened TaskSystem
  import opened TaskInvariant
  import opened TaskProofs
  import opened TaskSteps
  import opened TaskRuns
  import opened TaskQueues
  import opened TaskTheorems

  // ----- the ready list as a circle -----

  function Triangle(n: nat): nat {
    n * (n + 1) / 2
  }

  /** Ahead of t in the list. */
  function Ahead(ready: seq<ThreadPtr>, t: ThreadPtr): nat
    requires t in ready
  {
    IndexOf(ready, t)
  }

  /**
   * A bound on the calls of scheduler_next before t is selected. From the front with b threads ahead
   * it is Triangle(b) + 1: at worst the thread just before t leaves, and the walk restarts with b - 1.
   */
  function Rank(ready: seq<ThreadPtr>, current: ThreadPtr, t: ThreadPtr, n: nat): int
    requires t in ready
  {
    var b := Ahead(ready, t);
    if current !in ready then Triangle(b) + 1
    else
      var i := IndexOf(ready, current);
      if i < b then b - i + Triangle(b - 1) else n - i + Triangle(b)
  }

  lemma TriangleStep(n: nat)
    requires n > 0
    ensures Triangle(n) == n + Triangle(n - 1)
  {
  }

  lemma RankAppend(ready: seq<ThreadPtr>, more: seq<ThreadPtr>, c: ThreadPtr, t: ThreadPtr, n: nat)
    requires NoDup(ready + more) && t in ready && (c in more ==> c in ready)
    ensures Rank(ready + more, c, t, n) == Rank(ready, c, t, n)
  {
    var all := ready + more;
    assert all[IndexOf(ready, t)] == t;
    IndexOfUnique(all, t, IndexOf(ready, t));
    if c in ready {
      assert all[IndexOf(ready, c)] == c;
      IndexOfUnique(all, c, IndexOf(ready, c));
    } else {
      assert c !in all;
    }
  }

  /** The current thread leaves the list. */
  lemma RankRemove(ready: seq<ThreadPtr>, c: ThreadPtr, t: ThreadPtr, n: nat)
    requires NoDup(ready) && t in ready && c != t && |ready| <= n
    ensures t in Without(ready, c) && Rank(Without(ready, c), c, t, n) <= Rank(ready, c, t, n)
  {
    hide Triangle;
    WithoutMembers(ready, c);
    if c in ready {
      var i, b := IndexOf(ready, c), IndexOf(ready, t);
      var b' := if i < b then b - 1 else b;
      assert Without(ready, c)[b'] == t;
      IndexOfUnique(Without(ready, c), t, b');
    }
  }

  lemma RankNext(ready: seq<ThreadPtr>, c: ThreadPtr, t: ThreadPtr, n: nat)
    requires NoDup(ready) && t in ready && |ready| <= n && c != t
    ensures var next := Successor(ready, c);
            next in ready && (next == t || Rank(ready, next, t, n) + 1 <= Rank(ready, c, t, n))
  {
    var b, next := Ahead(ready, t), Successor(ready, c);
    var j := if c !in ready || IndexOf(ready, c) + 1 == |ready| then 0 else IndexOf(ready, c) + 1;
    assert next == ready[j];
    IndexOfUnique(ready, next, j);
    if b > 0 { TriangleStep(b); }
  }

  lemma RankPositive(ready: seq<ThreadPtr>, c: ThreadPtr, t: ThreadPtr, n: nat)
    requires t in ready && c != t && |ready| <= n
    ensures 1 <= Rank(ready, c, t, n) <= n + Triangle(Ahead(ready, t))
  {
    var b := Ahead(ready, t);
    if b > 0 { TriangleStep(b); }
  }

  /** Round robin: the next in the list, and the first after the last. */
  lemma RoundRobin(s: System, i: nat)
    requires Reachable(s) && i < |s.k.ready| && s.k.ready[i] == s.k.current
    ensures Switch(s.k).current == s.k.ready[(i + 1) % |s.k.ready|]
  {
    assert NoDup(s.k.ready) by { ReadyListIsExact(s); }
    hide Reachable, Rescheduled;
    IndexOfUnique(s.k.ready, s.k.current, i);
    CircleIndex(i, |s.k.ready|);
  }

  /** The first also when the outgoing thread is not linked; the idle thread when nobody is ready. */
  lemma RestartsAtFront(s: System)
    requires s.k.current !in s.k.ready
    ensures Switch(s.k).current == if s.k.ready == [] then IDLE else s.k.ready[0]
  {
  }

  lemma CircleIndex(i: nat, n: nat)
    requires i < n
    ensures (i + 1) % n == if i + 1 == n then 0 else i + 1
  {
  }

  // ----- which events call scheduler_next -----

  predicate Selects(s: System, e: Event) {
    match e
    case Tick => TickSwitches(s.k)
    case Yield => s.k.current != NULL
    case MutexLock(m) => m in s.k.owner
    case CondvarWait(_, _) => true
    case CondvarWaitRelock => PcOf(s).Relock? && PcOf(s).mutex in s.k.owner
    case SemaphoreAcquire(x) => !(x in s.k.count && s.k.count[x] > 0)
    case ThreadBlock => true
    case ThreadJoin(t) => !(t in s.k.state && s.k.state[t] == Terminated)
    case ThreadExit => true
    case ReaperSleep => true
    case _ => false
  }

  /** Newcomers join at the tail, and nobody leaves. */
  ghost predicate OnlyGrows(k: Kernel, k': Kernel) {
    k'.current == k.current && k.ready <= k'.ready
  }

  /** scheduler_next is called once, after at most the current thread left and others joined. */
  ghost predicate SelectsOnce(k: Kernel, k': Kernel) {
    && k'.current == Successor(k'.ready, k.current) && Lets(k.ready, k'.ready, k.current)
    && k'.quantum == SCHEDULER_QUANTUM_TICKS
  }

  ghost predicate Lets(ready: seq<ThreadPtr>, ready': seq<ThreadPtr>, c: ThreadPtr) {
    ready <= ready' || (Without(ready, c) <= ready' && c !in ready')
  }

  lemma SwitchSelects(k0: Kernel, k: Kernel)
    requires k.current == k0.current && Lets(k0.ready, k.ready, k0.current)
    ensures SelectsOnce(k0, Switch(k))
  {
    hide Lets;
  }

  lemma OperationsSelect(k: Kernel)
    requires NoDup(k.ready)
    ensures SelectsOnce(k, Switch(k)) && SelectsOnce(k, Block(k))
    ensures forall q :: SelectsOnce(k, Sleep(k, q))
  {
    WithoutMembers(k.ready, k.current);
    hide Switch, Without, SelectsOnce;
    SwitchSelects(k, k);
    SwitchSelects(k, Suspend(k, Blocked));
    forall q ensures SelectsOnce(k, Sleep(k, q)) {
      SwitchSelects(k, Suspend(Enqueue(k, q, k.current), Blocked));
    }
  }

  lemma PushCarries(k: Kernel, t: ThreadPtr)
    ensures k.ready <= PushZombie(k, t).ready && PushZombie(k, t).current == k.current
  {
  }

  lemma WakeAllCarries(k: Kernel, q: QueuePtr)
    ensures k.ready <= WakeAll(k, q).ready && WakeAll(k, q).current == k.current && WakeAll(k, q).detached == k.detached
  {
  }

  lemma KillReady(k: Kernel)
    requires k.current != NULL
    ensures Without(k.ready, k.current) <= Terminate(k).ready == KillCurrent(k).ready
    ensures Terminate(k).current == k.current
  {
    hide Without, Rescheduled, Successor, WakeAll, PushZombie;
    var k1 := Suspend(k, Terminated);
    WakeAllCarries(k1, TerminationQueue(k.current));
    PushCarries(WakeAll(k1, TerminationQueue(k.current)), k.current);
  }

  lemma KillSelects(k: Kernel)
    requires k.current != NULL && k.current !in KillCurrent(k).ready
    ensures SelectsOnce(k, KillCurrent(k))
  {
    hide Switch, Terminate, Without, SelectsOnce;
    KillReady(k);
    SwitchSelects(k, Terminate(k));
  }

  lemma WithoutAppend(ts: seq<ThreadPtr>, us: seq<ThreadPtr>, c: ThreadPtr)
    requires c in ts && NoDup(ts + us)
    ensures Without(ts + us, c) == Without(ts, c) + us
  {
    hide IndexOf, NoDup;
    var i := IndexOf(ts, c);
    assert (ts + us)[i] == c;
    IndexOfUnique(ts + us, c, i);
    assert (ts + us)[..i] == ts[..i] && (ts + us)[i + 1..] == ts[i + 1..] + us;
  }

  lemma WaitSelects(k: Kernel, c: CondvarPtr, m: MutexPtr)
    requires k.current in k.ready && NoDup(TaskState.MutexUnlock(k, m).ready)
    ensures SelectsOnce(k, CondvarSleep(k, c, m))
  {
    var k1 := TaskState.MutexUnlock(k, m);
    if Queue(k, MutexQueue(m)) != [] {
      WithoutAppend(k.ready, [Queue(k, MutexQueue(m))[0]], k.current);
    }
    WithoutMembers(k1.ready, k.current);
    hide Switch, Without, SelectsOnce;
    SwitchSelects(k, Suspend(Enqueue(k1, CondvarQueue(c), k1.current), Blocked));
  }

  // ----- one event -----

  /** Neither the current thread nor its quantum is touched. */
  ghost predicate Carries(k: Kernel, k': Kernel) {
    OnlyGrows(k, k') && k'.quantum == k.quantum
  }

  lemma WakesCarry(k: Kernel)
    ensures forall q :: Carries(k, Wake(k, q)) && Carries(k, WakeAll(k, q))
    ensures forall t :: Carries(k, Unblock(k, t)) && Carries(k, Detach(k, t))
    ensures forall x :: Carries(k, TaskState.SemaphoreRelease(k, x))
  {
    hide Queue;
  }

  lemma LivesCarry(k: Kernel)
    ensures forall t, p :: Carries(k, Create(k, t, p))
    ensures forall t :: Carries(k, TaskState.ThreadAdd(k, t))
    ensures forall m :: Carries(k, MutexRelease(k, m))
    ensures forall ts :: Carries(k, Destroy(k, ts))
    ensures Carries(k, Drain(k))
  {
    hide Surviving, Queue;
  }

  lemma PlainEvent(s: System, e: Event)
    requires !Selects(s, e) && Enabled(s, e)
    ensures OnlyGrows(s.k, Apply(s, e).k)
    ensures Apply(s, e).k.quantum ==
            if e == Event.Tick && s.k.current != NULL then Decremented(s.k.quantum) else s.k.quantum
  {
    hide Sleep, Switch, Wake, WakeAll, Unblock, Detach, TaskState.ThreadAdd, Create, MutexRelease, CondvarSleep,
      TaskState.SemaphoreRelease, Destroy, Drain, Terminate, KillCurrent, Block, Decremented;
    WakesCarry(s.k);
    LivesCarry(s.k);
  }

  lemma ReadyNoDup(s: System)
    requires Inv(s)
    ensures NoDup(s.k.ready) && IDLE !in s.k.ready
    ensures s.k.current != IDLE ==> s.k.current in s.k.ready
    ensures |s.k.ready| <= |s.pc| && s.k.current != NULL
  {
    assert forall t | t in s.k.ready :: Runnable(s.k.state, s.k.linked, t);
    ListFits(s.k.ready, s.pc.Keys);
  }

  lemma {:induction false} ListFits(ts: seq<ThreadPtr>, all: set<ThreadPtr>)
    requires NoDup(ts) && forall t | t in ts :: t in all
    ensures |ts| <= |all|
  {
    if ts != [] {
      assert forall t | t in ts[1..] :: t in all && t != ts[0];
      ListFits(ts[1..], all - {ts[0]});
    }
  }

  lemma UnlockedReady(s: System, m: MutexPtr)
    requires Inv(s)
    ensures NoDup(TaskState.MutexUnlock(s.k, m).ready)
  {
    UnlockKeeps(s.k, m);
    hide ObjectInv, QueueInv, WaitingInv, ThreadsInv, DetachedInv, ZombieInv, JoinQueueInv, TaskState.MutexUnlock;
  }

  lemma DeadNotReady(s: System, t: ThreadPtr)
    requires Inv(s) && t in s.pc && s.pc[t] == Dead
    ensures t !in s.k.ready
  {
    assert PcSuits(s.pc[t], s.k.state[t], WaitOf(s.k.waitQueue, t), t in s.handoff, t in s.k.linked, t == s.k.reaper);
    assert !Runnable(s.k.state, s.k.linked, t);
  }

  lemma ExitSelects(s: System)
    requires Inv(s) && Enabled(s, ThreadExit)
    ensures SelectsOnce(s.k, Apply(s, ThreadExit).k)
  {
    hide Inv, SelectsOnce, KillCurrent;
    EventKeepsInv(s, ThreadExit);
    InThread(s);
    ReadyNoDup(s);
    DeadNotReady(Apply(s, ThreadExit), s.k.current);
    KillSelects(s.k);
  }

  lemma SelectingEvent(s: System, e: Event)
    requires Inv(s) && Enabled(s, e) && Selects(s, e)
    ensures SelectsOnce(s.k, Apply(s, e).k)
  {
    hide Inv, SelectsOnce, Sleep, Switch, Wake, WakeAll, Unblock, Detach, TaskState.ThreadAdd, Create, MutexRelease,
      CondvarSleep, TaskState.SemaphoreRelease, Destroy, Drain, Terminate, KillCurrent, Block;
    ReadyNoDup(s);
    OperationsSelect(s.k);
    if e.ThreadExit? {
      ExitSelects(s);
    } else if e.CondvarWait? {
      InThread(s);
      UnlockedReady(s, e.mutex);
      WaitSelects(s.k, e.condvar, e.mutex);
    }
  }

  // ----- whole runs -----

  /** A thread that waits for its turn comes one selection nearer, or is selected. */
  lemma SelectionAdvances(k: Kernel, k': Kernel, t: ThreadPtr, n: nat)
    requires SelectsOnce(k, k') && NoDup(k.ready) && NoDup(k'.ready) && t in k.ready && t != k.current
    requires |k.ready| <= n && |k'.ready| <= n && (k.current in k.ready || k.current !in k'.ready)
    ensures t in k'.ready && k'.current in k'.ready
    ensures k'.current == t || Rank(k'.ready, k'.current, t, n) < Rank(k.ready, k.current, t, n)
  {
    hide Rank, Successor, Without;
    var base := if k.ready <= k'.ready then k.ready else Without(k.ready, k.current);
    if base != k.ready { RankRemove(k.ready, k.current, t, n); }
    var more := k'.ready[|base|..];
    assert k'.ready == base + more;
    CurrentNotNew(base, more, k.current);
    RankAppend(base, more, k.current, t, n);
    RankNext(k'.ready, k.current, t, n);
  }

  lemma CurrentNotNew(base: seq<ThreadPtr>, more: seq<ThreadPtr>, c: ThreadPtr)
    requires NoDup(base + more) && (c in base || c !in base + more)
    ensures c !in more
  {
    if c in base {
      assert (base + more)[IndexOf(base, c)] == c;
    }
    forall i | 0 <= i < |more| ensures more[i] != c {
      assert (base + more)[|base| + i] == more[i];
    }
  }

  lemma GrowthKeepsRank(k: Kernel, k': Kernel, t: ThreadPtr, n: nat)
    requires OnlyGrows(k, k') && NoDup(k'.ready) && t in k.ready && (k.current in k.ready || k.current !in k'.ready)
    ensures t in k'.ready && Rank(k'.ready, k'.current, t, n) == Rank(k.ready, k.current, t, n)
  {
    hide Rank;
    var more := k'.ready[|k.ready|..];
    assert k'.ready == k.ready + more;
    CurrentNotNew(k.ready, more, k.current);
    RankAppend(k.ready, more, k.current, t, n);
  }

  /** Calls of scheduler_next in a run. */
  ghost function Selections(s: System, es: seq<Event>): nat
    decreases |es|
  {
    if es == [] then 0 else (if Selects(s, es[0]) then 1 else 0) + Selections(Apply(s, es[0]), es[1..])
  }

  /** At most n threads are alive all along a run. */
  ghost predicate Crowd(s: System, es: seq<Event>, n: nat)
    decreases |es|
  {
    |s.pc| <= n && (es != [] ==> Crowd(Apply(s, es[0]), es[1..], n))
  }

  /** The i-th event of the run calls scheduler_next, which selects t. */
  ghost predicate SelectedBy(s: System, es: seq<Event>, i: nat, t: ThreadPtr)
    requires i < |es|
  {
    var before := Run(s, es[..i]);
    Selects(before, es[i]) && Apply(before, es[i]).k.current == t
  }

  lemma OneEvent(s: System, e: Event, t: ThreadPtr, n: nat)
    requires Inv(s) && Enabled(s, e) && t in s.k.ready && t != s.k.current
    requires |s.pc| <= n && |Apply(s, e).pc| <= n
    ensures var k' := Apply(s, e).k;
            if Selects(s, e) then
              && t in k'.ready
              && (k'.current == t || Rank(k'.ready, k'.current, t, n) < Rank(s.k.ready, s.k.current, t, n))
            else
              t in k'.ready && k'.current != t && Rank(k'.ready, k'.current, t, n) == Rank(s.k.ready, s.k.current, t, n)
  {
    hide Inv, Enabled, Apply, Selects, SelectsOnce, Rank;
    EventKeepsInv(s, e);
    ReadyNoDup(s);
    ReadyNoDup(Apply(s, e));
    if Selects(s, e) {
      SelectingEvent(s, e);
      SelectionAdvances(s.k, Apply(s, e).k, t, n);
    } else {
      PlainEvent(s, e);
      GrowthKeepsRank(s.k, Apply(s, e).k, t, n);
    }
  }

  lemma {:induction false} RankBoundsWait(s: System, es: seq<Event>, t: ThreadPtr, n: nat) returns (i: nat)
    requires Inv(s) && Legal(s, es) && Crowd(s, es, n) && t in s.k.ready && t != s.k.current
    requires Selections(s, es) >= Rank(s.k.ready, s.k.current, t, n)
    ensures i < |es| && SelectedBy(s, es, i, t)
    decreases |es|
  {
    hide Inv, Enabled, Apply, Selects, Rank;
    ReadyNoDup(s);
    RankPositive(s.k.ready, s.k.current, t, n);
    var s1 := Apply(s, es[0]);
    OneEvent(s, es[0], t, n);
    EventKeepsInv(s, es[0]);
    if Selects(s, es[0]) && s1.k.current == t {
      i := 0;
      assert es[..0] == [];
    } else {
      var j := RankBoundsWait(s1, es[1..], t, n);
      i := j + 1;
      assert es[..i][0] == es[0] && es[..i][1..] == es[1..][..j];
    }
  }

  /**
   * Starvation freedom: with at most n threads alive, a thread of the ready list with b threads ahead
   * of it is selected within n + b(b + 1)/2 calls of scheduler_next, whatever the others do.
   */
  lemma SelectedWithin(s: System, es: seq<Event>, t: ThreadPtr, n: nat)
    requires Reachable(s) && Legal(s, es) && Crowd(s, es, n) && t in s.k.ready && t != s.k.current
    requires Selections(s, es) >= n + Triangle(Ahead(s.k.ready, t))
    ensures exists i: nat :: i < |es| && SelectedBy(s, es, i, t)
  {
    hide Inv, Reachable, SelectedBy, Triangle, Ahead, Rank;
    ReachableInv(s);
    ReadyNoDup(s);
    RankPositive(s.k.ready, s.k.current, t, n);
    var i := RankBoundsWait(s, es, t, n);
  }

  function TicksIn(es: seq<Event>): nat {
    if es == [] then 0 else (if es[0] == Event.Tick then 1 else 0) + TicksIn(es[1..])
  }

  lemma QuantumBound(s: System)
    requires Inv(s)
    ensures 1 <= s.k.quantum <= SCHEDULER_QUANTUM_TICKS
  {
  }

  lemma QuantumStep(s: System, e: Event)
    requires Inv(s) && Enabled(s, e)
    ensures var q, q' := s.k.quantum, Apply(s, e).k.quantum;
            && (e == Event.Tick ==> (Selects(s, e) <==> q == 1))
            && q' == (if Selects(s, e) then SCHEDULER_QUANTUM_TICKS else if e == Event.Tick then q - 1 else q)
  {
    hide Inv, Apply, Enabled;
    ReadyNoDup(s);
    QuantumBound(s);
    if Selects(s, e) {
      SelectingEvent(s, e);
    } else {
      PlainEvent(s, e);
    }
  }

  /** A selection falls into every SCHEDULER_QUANTUM_TICKS consecutive ticks. */
  lemma {:induction false} TicksForceSelections(s: System, es: seq<Event>)
    requires Inv(s) && Legal(s, es)
    ensures 1 <= s.k.quantum && 1 <= Run(s, es).k.quantum
    ensures TicksIn(es) + Run(s, es).k.quantum <= SCHEDULER_QUANTUM_TICKS * Selections(s, es) + s.k.quantum
    decreases |es|
  {
    hide Inv, Apply, Enabled, Selects;
    QuantumBound(s);
    if es != [] {
      QuantumStep(s, es[0]);
      EventKeepsInv(s, es[0]);
      TicksForceSelections(Apply(s, es[0]), es[1..]);
    }
  }

  /** The same bound in time: a waiting thread gets the processor within 5(n + b(b + 1)/2) timer ticks. */
  lemma SelectedInTime(s: System, es: seq<Event>, t: ThreadPtr, n: nat)
    requires Reachable(s) && Legal(s, es) && Crowd(s, es, n) && t in s.k.ready && t != s.k.current
    requires TicksIn(es) >= SCHEDULER_QUANTUM_TICKS * (n + Triangle(Ahead(s.k.ready, t)))
    ensures exists i: nat :: i < |es| && SelectedBy(s, es, i, t)
  {
    hide Inv, Reachable, SelectedBy, Triangle, Ahead, Apply, Selects;
    ReachableInv(s);
    TicksForceSelections(s, es);
    QuantumBound(s);
    SelectedWithin(s, es, t, n);
  }
}
