/**
 * First in, first out: over any run, what a wait queue held plus what joined it is what left it
 * plus what it still holds, in that order.
 */
module TaskQueues {
  import opened Sequences
  import opened TaskState
  import opened TaskSystem
  import opened TaskInvariant
  import opened TaskRuns

  function FirstOf(ts: seq<ThreadPtr>): seq<ThreadPtr> {
    if ts == [] then [] else ts[..1]
  }

  /** The threads an event takes out of queue q. */
  function Departed(s: System, e: Event, q: QueuePtr): seq<ThreadPtr> {
    var ts := Queue(s.k, q);
    match q
    case MutexQueue(m) =>
      if e == MutexUnlock(m) || (e.CondvarWait? && e.mutex == m) then FirstOf(ts) else []
    case CondvarQueue(c) =>
      if e == CondvarSignal(c) then FirstOf(ts) else if e == CondvarBroadcast(c) then ts else []
    case SemaphoreQueue(x) => if e == SemaphoreRelease(x) then FirstOf(ts) else []
    case TerminationQueue(t) => if e == ThreadExit && s.k.current == t then ts else []
    case ReaperQueue => if ZombieAppears(s, e) then FirstOf(ts) else []
  }

  /** The current thread terminates detached, or a terminated thread is detached. */
  predicate ZombieAppears(s: System, e: Event) {
    || (e == ThreadExit && s.k.current in s.k.detached)
    || (e.ThreadDetach? && e.thread in s.k.state && s.k.state[e.thread] == Terminated)
  }

  /** The threads an event puts at the end of queue q. */
  function Arrived(s: System, e: Event, q: QueuePtr): seq<ThreadPtr> {
    var me := [s.k.current];
    match q
    case MutexQueue(m) =>
      if (e == MutexLock(m) || (e == CondvarWaitRelock && PcOf(s) == Relock(m))) && m in s.k.owner then me else []
    case CondvarQueue(c) => if e.CondvarWait? && e.condvar == c then me else []
    case SemaphoreQueue(x) => if e == SemaphoreAcquire(x) && !(x in s.k.count && s.k.count[x] > 0) then me else []
    case TerminationQueue(t) =>
      if e == ThreadJoin(t) && !(t in s.k.state && s.k.state[t] == Terminated) then me else []
    case ReaperQueue => if e == ReaperSleep then me else []
  }

  lemma QueuesOfWakeAll(k: Kernel, r: QueuePtr, q: QueuePtr)
    ensures Queue(WakeAll(k, r), q) == if q == r then [] else Queue(k, q)
    ensures WakeAll(k, r).detached == k.detached && WakeAll(k, r).current == k.current
  {
  }

  lemma QueuesOfPush(k: Kernel, t: ThreadPtr, q: QueuePtr)
    ensures Queue(PushZombie(k, t), q) ==
            if q == ReaperQueue then Queue(k, q)[|FirstOf(Queue(k, q))|..] else Queue(k, q)
  {
  }

  lemma QueuesOfTerminate(k: Kernel, q: QueuePtr)
    ensures Queue(KillCurrent(k), q) == Queue(Terminate(k), q)
    ensures Queue(Terminate(k), q) ==
              if q == TerminationQueue(k.current) then []
              else if q == ReaperQueue && k.current in k.detached then Queue(k, q)[|FirstOf(Queue(k, q))|..]
              else Queue(k, q)
  {
    hide WakeAll, PushZombie, FirstOf, Without, Rescheduled, Successor;
    var k1 := Suspend(k, Terminated);
    QueuesOfWakeAll(k1, TerminationQueue(k.current), q);
    QueuesOfPush(WakeAll(k1, TerminationQueue(k.current)), k.current, q);
  }

  lemma QueuesOfWait(k: Kernel, c: CondvarPtr, m: MutexPtr, q: QueuePtr)
    ensures Queue(CondvarSleep(k, c, m), q) ==
              if q == MutexQueue(m) then Queue(k, q)[|FirstOf(Queue(k, q))|..]
              else if q == CondvarQueue(c) then Queue(k, q) + [k.current] else Queue(k, q)
  {
  }

  ghost predicate Flows(s: System, e: Event, q: QueuePtr) {
    && Departed(s, e, q) <= Queue(s.k, q)
    && Queue(Apply(s, e).k, q) == Queue(s.k, q)[|Departed(s, e, q)|..] + Arrived(s, e, q)
  }

  lemma NothingFlows(s: System, e: Event, q: QueuePtr)
    requires Departed(s, e, q) == [] && Arrived(s, e, q) == [] && Queue(Apply(s, e).k, q) == Queue(s.k, q)
    ensures Flows(s, e, q)
  {
  }

  predicate IsQuiet(e: Event) {
    || e.Tick? || e.Yield? || e.ThreadBlock? || e.ThreadBlockReturn? || e.ThreadUnblock? || e.MutexLockReturn?
    || e.MutexUnlockWake? || e.CondvarWaitResume? || e.SemaphoreAcquireReturn? || e.ReaperResume?
    || e.ProcessCreate? || e.ThreadCreate? || e.ThreadAdd? || e.ThreadJoinReturn? || e.ReaperDrainAll?
  }

  lemma QuietNames(s: System, e: Event, q: QueuePtr)
    requires IsQuiet(e)
    ensures Departed(s, e, q) == [] && Arrived(s, e, q) == []
  {
  }

  lemma QuietQueues(s: System, e: Event)
    requires IsQuiet(e)
    ensures Apply(s, e).k.queue == s.k.queue
  {
    hide Sleep, Terminate, KillCurrent, Detach, WakeAll, Wake, CondvarSleep, TaskState.SemaphoreAcquire,
      TaskState.SemaphoreRelease, LockStep, UnlockStep, PushZombie, Destroy, Drain, TaskState.Tick, TaskState.Yield,
        Block;
    SchedulingKeepsQueues(s.k);
    FreeingKeepsQueues(s.k);
  }

  lemma SchedulingKeepsQueues(k: Kernel)
    ensures TaskState.Tick(k).queue == TaskState.Yield(k).queue == Block(k).queue == k.queue
  {
    hide Rescheduled, Successor, Without;
  }

  lemma FreeingKeepsQueues(k: Kernel)
    ensures Drain(k).queue == k.queue && forall ts :: Destroy(k, ts).queue == k.queue
  {
    hide Surviving;
  }

  lemma QuietFlows(s: System, e: Event, q: QueuePtr)
    requires IsQuiet(e)
    ensures Flows(s, e, q)
  {
    hide Departed, Arrived, Apply;
    QuietNames(s, e, q);
    QuietQueues(s, e);
    NothingFlows(s, e, q);
  }

  lemma QueuesOfSleep(k: Kernel, r: QueuePtr, q: QueuePtr)
    ensures Queue(Sleep(k, r), q) == if q == r then Queue(k, q) + [k.current] else Queue(k, q)
  {
  }

  /** Nothing departs; the current thread arrives at `r` if it goes to sleep there. */
  lemma SleepFlow(s: System, e: Event, q: QueuePtr, r: QueuePtr, k': Kernel, asleep: bool)
    requires Apply(s, e).k == k' && k'.queue == (if asleep then Sleep(s.k, r) else s.k).queue
    requires Departed(s, e, q) == [] && Arrived(s, e, q) == if asleep && q == r then [s.k.current] else []
    ensures Flows(s, e, q)
  {
    QueuesOfSleep(s.k, r, q);
  }

  lemma MutexLockFlows(s: System, m: MutexPtr, q: QueuePtr)
    ensures Flows(s, MutexLock(m), q)
  {
    hide Sleep;
    SleepFlow(s, MutexLock(m), q, MutexQueue(m), TaskState.MutexLock(s.k, m), m in s.k.owner);
  }

  lemma RelockFlows(s: System, q: QueuePtr)
    ensures Flows(s, CondvarWaitRelock, q)
  {
    hide Sleep;
    if PcOf(s).Relock? {
      var m := PcOf(s).mutex;
      SleepFlow(s, CondvarWaitRelock, q, MutexQueue(m), TaskState.MutexLock(s.k, m), m in s.k.owner);
    }
  }

  lemma AcquireFlows(s: System, x: SemaphorePtr, q: QueuePtr)
    ensures Flows(s, SemaphoreAcquire(x), q)
  {
    hide Sleep;
    SleepFlow(s, SemaphoreAcquire(x), q, SemaphoreQueue(x), TaskState.SemaphoreAcquire(s.k, x),
              !(x in s.k.count && s.k.count[x] > 0));
  }

  lemma JoinFlows(s: System, t: ThreadPtr, q: QueuePtr)
    ensures Flows(s, ThreadJoin(t), q)
  {
    hide Sleep;
    SleepFlow(s, ThreadJoin(t), q, TerminationQueue(t), Apply(s, ThreadJoin(t)).k,
              !(t in s.k.state && s.k.state[t] == Terminated));
  }

  lemma ReaperFlows(s: System, q: QueuePtr)
    ensures Flows(s, ReaperSleep, q)
  {
    hide Sleep;
    SleepFlow(s, ReaperSleep, q, ReaperQueue, Sleep(s.k, ReaperQueue), true);
  }

  lemma QueuesOfWake(k: Kernel, r: QueuePtr, q: QueuePtr)
    ensures Queue(Wake(k, r), q) == if q == r then Queue(k, q)[|FirstOf(Queue(k, q))|..] else Queue(k, q)
    ensures Queue(WakeAll(k, r), q) == if q == r then [] else Queue(k, q)
  {
  }

  /** Nobody arrives; `gone` leave queue `r`. */
  lemma WakeFlow(s: System, e: Event, q: QueuePtr, r: QueuePtr, gone: seq<ThreadPtr>)
    requires gone <= Queue(s.k, r)
    requires Departed(s, e, q) == (if q == r then gone else []) && Arrived(s, e, q) == []
    requires Queue(Apply(s, e).k, q) == if q == r then Queue(s.k, q)[|gone|..] else Queue(s.k, q)
    ensures Flows(s, e, q)
  {
  }

  lemma SignalFlows(s: System, c: CondvarPtr, q: QueuePtr)
    ensures Flows(s, CondvarSignal(c), q) && Flows(s, CondvarBroadcast(c), q)
  {
    var r := CondvarQueue(c);
    QueuesOfWake(s.k, r, q);
    hide Wake, WakeAll, Queue;
    WakeFlow(s, CondvarSignal(c), q, r, FirstOf(Queue(s.k, r)));
    WakeFlow(s, CondvarBroadcast(c), q, r, Queue(s.k, r));
  }

  lemma ReleaseFlows(s: System, x: SemaphorePtr, q: QueuePtr)
    ensures Flows(s, SemaphoreRelease(x), q)
  {
    var r := SemaphoreQueue(x);
    QueuesOfWake(s.k, r, q);
    hide Wake;
    WakeFlow(s, SemaphoreRelease(x), q, r, FirstOf(Queue(s.k, r)));
  }

  lemma DetachFlows(s: System, t: ThreadPtr, q: QueuePtr)
    ensures Flows(s, ThreadDetach(t), q)
  {
    var r := ReaperQueue;
    QueuesOfWake(s.k.(detached := s.k.detached + {t}, zombies := s.k.zombies + [t]), r, q);
    hide Wake;
    WakeFlow(s, ThreadDetach(t), q, r, if ZombieAppears(s, ThreadDetach(t)) then FirstOf(Queue(s.k, r)) else []);
  }

  lemma UnlockFlows(s: System, m: MutexPtr, q: QueuePtr)
    ensures Flows(s, MutexUnlock(m), q)
  {
    WakeFlow(s, MutexUnlock(m), q, MutexQueue(m), FirstOf(Queue(s.k, MutexQueue(m))));
  }

  lemma ExitFlows(s: System, q: QueuePtr)
    ensures Flows(s, ThreadExit, q)
  {
    QueuesOfTerminate(s.k, q);
    hide KillCurrent, Terminate;
    if q == ReaperQueue {
      WakeFlow(s, ThreadExit, q, q, if s.k.current in s.k.detached then FirstOf(Queue(s.k, q)) else []);
    } else {
      WakeFlow(s, ThreadExit, q, TerminationQueue(s.k.current), Queue(s.k, TerminationQueue(s.k.current)));
    }
  }

  lemma WaitFlows(s: System, c: CondvarPtr, m: MutexPtr, q: QueuePtr)
    ensures Flows(s, CondvarWait(c, m), q)
  {
    QueuesOfWait(s.k, c, m, q);
    hide CondvarSleep;
  }

  /** One event: the departed leave from the front, the arrived join at the back. */
  lemma QueueStep(s: System, e: Event, q: QueuePtr)
    ensures Departed(s, e, q) <= Queue(s.k, q)
    ensures Queue(Apply(s, e).k, q) == Queue(s.k, q)[|Departed(s, e, q)|..] + Arrived(s, e, q)
  {
    hide Apply, Departed, Arrived, Queue;
    assert Flows(s, e, q) by {
      hide Flows;
      match e {
        case MutexLock(m) => MutexLockFlows(s, m, q);
        case CondvarWaitRelock => RelockFlows(s, q);
        case SemaphoreAcquire(x) => AcquireFlows(s, x, q);
        case ThreadJoin(t) => JoinFlows(s, t, q);
        case ReaperSleep => ReaperFlows(s, q);
        case CondvarSignal(c) => SignalFlows(s, c, q);
        case CondvarBroadcast(c) => SignalFlows(s, c, q);
        case SemaphoreRelease(x) => ReleaseFlows(s, x, q);
        case ThreadDetach(t) => DetachFlows(s, t, q);
        case MutexUnlock(m) => UnlockFlows(s, m, q);
        case ThreadExit => ExitFlows(s, q);
        case CondvarWait(c, m) => WaitFlows(s, c, m, q);
        case _ => QuietFlows(s, e, q);
      }
    }
  }

  // ----- whole runs -----

  ghost function DepartedIn(s: System, es: seq<Event>, q: QueuePtr): seq<ThreadPtr>
    decreases |es|
  {
    if es == [] then [] else Departed(s, es[0], q) + DepartedIn(Apply(s, es[0]), es[1..], q)
  }

  ghost function ArrivedIn(s: System, es: seq<Event>, q: QueuePtr): seq<ThreadPtr>
    decreases |es|
  {
    if es == [] then [] else Arrived(s, es[0], q) + ArrivedIn(Apply(s, es[0]), es[1..], q)
  }

  /** Over a whole run a queue is first in, first out: nothing is lost, duplicated or reordered. */
  lemma {:induction false} QueueConservation(s: System, es: seq<Event>, q: QueuePtr)
    ensures Queue(s.k, q) + ArrivedIn(s, es, q) == DepartedIn(s, es, q) + Queue(Run(s, es).k, q)
    decreases |es|
  {
    hide Apply, Departed, Arrived, Queue;
    if es != [] {
      var s1 := Apply(s, es[0]);
      var d, a := Departed(s, es[0], q), Arrived(s, es[0], q);
      var ds, as' := DepartedIn(s1, es[1..], q), ArrivedIn(s1, es[1..], q);
      QueueStep(s, es[0], q);
      QueueConservation(s1, es[1..], q);
      calc {
        Queue(s.k, q) + (a + as');
        d + Queue(s.k, q)[|d|..] + (a + as');
        d + (Queue(s.k, q)[|d|..] + a + as');
        d + (Queue(s1.k, q) + as');
        d + (ds + Queue(Run(s1, es[1..]).k, q));
        d + ds + Queue(Run(s1, es[1..]).k, q);
      }
    }
  }

  /** The thread with k others before it is the one that leaves after them. */
  lemma KthToLeave(s: System, es: seq<Event>, q: QueuePtr, k: nat)
    requires k < |Queue(s.k, q)|
    ensures var gone := DepartedIn(s, es, q);
            if |gone| <= k
            then k - |gone| < |Queue(Run(s, es).k, q)| && Queue(Run(s, es).k, q)[k - |gone|] == Queue(s.k, q)[k]
            else gone[k] == Queue(s.k, q)[k]
  {
    hide Departed, Arrived, Queue, Apply;
    QueueConservation(s, es, q);
    var gone, rest := DepartedIn(s, es, q), Queue(Run(s, es).k, q);
    assert (Queue(s.k, q) + ArrivedIn(s, es, q))[k] == (gone + rest)[k];
  }
}
