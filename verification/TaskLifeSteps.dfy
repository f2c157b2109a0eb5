/** The steps that create, end, detach and destroy threads keep the invariant. */
module TaskLifeSteps {
  import opened Sequences
  import opened TaskState
  import opened TaskSystem
  import opened TaskInvariant
  import opened TaskProofs
  import opened TaskSteps

  // ----- creation -----

  lemma ProcessCreateStep(s: System, p: ProcessPtr)
    requires Inv(s) && p !in s.usedProcesses
    ensures Inv(s.(k := s.k.(processes := s.k.processes + {p}), usedProcesses := s.usedProcesses + {p}))
  {
    hide PcInv, HandoffInv, MutexInv, OwnersKnown, JoinInv, ReadyInv, RunningInv, QueueInv, WaitingInv, ObjectInv,
      DetachedInv, ZombieInv, JoinQueueInv;
  }

  lemma NewThread(pc: Pcs, state: States, waits: Waits, handoff: Handoffs, linked: set<ThreadPtr>, reaper: ThreadPtr,
                  t: ThreadPtr)
    requires PcInv(pc, state, waits, handoff, linked, reaper) && HandoffInv(pc, state, waits, handoff)
    requires WaitingInv(waits, state) && t !in state && t != IDLE && t !in linked && t != reaper
    ensures PcInv(pc[t := User], state[t := Ready], waits, handoff, linked, reaper)
    ensures HandoffInv(pc[t := User], state[t := Ready], waits, handoff)
  {
    forall u | u in pc[t := User]
      ensures PcSuits(pc[t := User][u], state[t := Ready][u], WaitOf(waits, u), u in handoff, u in linked, u == reaper)
    {
      if u != t {
        assert PcSuits(pc[u], state[u], WaitOf(waits, u), u in handoff, u in linked, u == reaper);
      }
    }
  }

  lemma NewThreadOwnsNothing(held: Held, owner: Owners, pc: Pcs, waits: Waits, used: set<ThreadPtr>, t: ThreadPtr)
    requires MutexInv(held, owner, pc, waits) && OwnersKnown(held, owner, used) && t !in used && t !in pc
    ensures MutexInv(held, owner, pc[t := User], waits) && OwnersKnown(held, owner, used + {t})
  {
  }

  lemma NewThreadJoinsNothing(pc: Pcs, state: States, waits: Waits, detached: set<ThreadPtr>, t: ThreadPtr)
    requires JoinInv(pc, state, waits, detached) && t !in pc && t !in state
    ensures JoinInv(pc[t := User], state[t := Ready], waits, detached)
  {
  }

  lemma NewThreadUnlinked(
    linked: set<ThreadPtr>, process: map<ThreadPtr, ProcessPtr>, processes: set<ProcessPtr>,
    populated: set<ProcessPtr>, used: set<ProcessPtr>, t: ThreadPtr, p: ProcessPtr)
    requires ProcessInv(linked, process, processes, populated, used) && t !in linked && t !in process
    ensures ProcessInv(linked, process[t := p], processes, populated, used)
  {
    forall q | q in populated && q in processes ensures Populated(linked, process[t := p], q) {
      var u :| u in linked && u in process && process[u] == q;
      assert u in process[t := p] && process[t := p][u] == q;
    }
  }

  lemma FreshThread(k: Kernel, t: ThreadPtr)
    requires KernelInv(k) && t !in k.state
    ensures t != IDLE && t != k.reaper && t !in k.linked && t !in k.process && WaitingInv(k.waitQueue, k.state)
  {
  }

  lemma ThreadsWithPc(pc: Pcs, state: States, waits: Waits, handoff: Handoffs, linked: set<ThreadPtr>,
                      reaper: ThreadPtr)
    requires PcInv(pc, state, waits, handoff, linked, reaper)
    ensures pc.Keys == state.Keys - {IDLE}
  {
  }

  lemma CreateFrame(k: Kernel, t: ThreadPtr, p: ProcessPtr)
    requires t !in k.state
    ensures CurrentRuns(k) ==> CurrentRuns(Create(k, t, p))
    ensures Create(k, t, p).state.Keys == k.state.Keys + {t}
  {
  }

  lemma ThreadCreateStep(s: System, t: ThreadPtr, p: ProcessPtr)
    requires Inv(s) && t !in s.usedThreads
    ensures Inv(s.(k := Create(s.k, t, p), pc := s.pc[t := User], usedThreads := s.usedThreads + {t}))
  {
    hide PcInv, HandoffInv, MutexInv, JoinInv, OwnersKnown, ProcessInv, KernelInv, WaitingInv;
    FreshThread(s.k, t);
    CreateFrame(s.k, t, p);
    assert t !in s.pc by { ThreadsWithPc(s.pc, s.k.state, s.k.waitQueue, s.handoff, s.k.linked, s.k.reaper); }
    CreateKeeps(s.k, t, p);
    NewThread(s.pc, s.k.state, s.k.waitQueue, s.handoff, s.k.linked, s.k.reaper, t);
    NewThreadOwnsNothing(s.held, s.k.owner, s.pc, s.k.waitQueue, s.usedThreads, t);
    NewThreadJoinsNothing(s.pc, s.k.state, s.k.waitQueue, s.k.detached, t);
    NewThreadUnlinked(s.k.linked, s.k.process, s.k.processes, s.populated, s.usedProcesses, t, p);
  }

  lemma LinkedThread(pc: Pcs, state: States, waits: Waits, handoff: Handoffs, linked: set<ThreadPtr>,
                     reaper: ThreadPtr, t: ThreadPtr)
    requires PcInv(pc, state, waits, handoff, linked, reaper)
    ensures PcInv(pc, state, waits, handoff, linked + {t}, reaper)
  {
    forall u | u in pc
      ensures PcSuits(pc[u], state[u], WaitOf(waits, u), u in handoff, u in linked + {t}, u == reaper)
    {
      assert PcSuits(pc[u], state[u], WaitOf(waits, u), u in handoff, u in linked, u == reaper);
    }
  }

  lemma LinkedProcess(
    linked: set<ThreadPtr>, process: map<ThreadPtr, ProcessPtr>, processes: set<ProcessPtr>,
    populated: set<ProcessPtr>, used: set<ProcessPtr>, t: ThreadPtr)
    requires ProcessInv(linked, process, processes, populated, used) && t in process && process[t] in processes
    ensures ProcessInv(linked + {t}, process, processes, populated + {process[t]}, used)
  {
    forall q | q in populated + {process[t]} && q in processes ensures Populated(linked + {t}, process, q) {
      if q == process[t] {
        assert t in linked + {t};
      } else {
        var u :| u in linked && u in process && process[u] == q;
        assert u in linked + {t};
      }
    }
  }

  lemma ThreadAddStep(s: System, t: ThreadPtr)
    requires Inv(s) && t in s.k.state && t != IDLE && t !in s.k.linked && t in s.k.process
             && s.k.process[t] in s.k.processes
    ensures Inv(s.(k := TaskState.ThreadAdd(s.k, t), populated := s.populated + {s.k.process[t]}))
  {
    hide PcInv, HandoffInv, MutexInv, JoinInv, OwnersKnown, ProcessInv, KernelInv;
    ThreadAddKeeps(s.k, t);
    LinkedThread(s.pc, s.k.state, s.k.waitQueue, s.handoff, s.k.linked, s.k.reaper, t);
    LinkedProcess(s.k.linked, s.k.process, s.k.processes, s.populated, s.usedProcesses, t);
  }

  // ----- detaching -----

  lemma DetachedNotJoined(pc: Pcs, state: States, waits: Waits, detached: set<ThreadPtr>, t: ThreadPtr)
    requires JoinInv(pc, state, waits, detached) && !Joined(pc, t)
    ensures JoinInv(pc, state, waits, detached + {t})
  {
  }

  /** Detaching a terminated thread also lists it as a zombie, before the reaper is woken. */
  function Detaching(k: Kernel, t: ThreadPtr): Kernel {
    k.(detached := k.detached + {t},
       zombies := if t in k.state && k.state[t] == Terminated then k.zombies + [t] else k.zombies)
  }

  lemma DetachingKeeps(k: Kernel, t: ThreadPtr)
    requires KernelInv(k) && t in k.state && t != IDLE && t !in k.detached
    ensures KernelInv(Detaching(k, t)) && (CurrentRuns(k) ==> CurrentRuns(Detaching(k, t)))
    ensures Detach(k, t) ==
              if k.state[t] == Terminated then Wake(Detaching(k, t), ReaperQueue) else Detaching(k, t)
  {
    ZombieAdded(k, t, k.state, k.detached + {t});
  }

  lemma DetachStep(s: System, t: ThreadPtr)
    requires Inv(s) && t in s.k.state && t != IDLE && t !in s.k.detached && !Joined(s.pc, t)
    ensures Inv(s.(k := Detach(s.k, t)))
  {
    hide PcInv, HandoffInv, MutexInv, JoinInv, OwnersKnown, ProcessInv, KernelInv;
    DetachingKeeps(s.k, t);
    DetachedNotJoined(s.pc, s.k.state, s.k.waitQueue, s.k.detached, t);
    var s1 := s.(k := Detaching(s.k, t));
    assert Inv(s1);
    if s.k.state[t] == Terminated {
      WakeStep(s1, ReaperQueue);
    }
  }

  // ----- destruction -----

  lemma PcsWithout(
    pc: Pcs, state: States, waits: Waits, handoff: Handoffs, linked: set<ThreadPtr>, reaper: ThreadPtr,
    ts: set<ThreadPtr>, c: ThreadPtr, p: Pc)
    requires PcInv(pc, state, waits, handoff, linked, reaper) && HandoffInv(pc, state, waits, handoff)
    requires forall t | t in ts :: t in state && state[t] == Terminated
    requires c in pc && c !in ts && c !in waits && c !in handoff && state[c] == Running && c in linked
    requires !pc[c].Handoff? && QueueOf(p) == None && !p.Handoff? && p != Dead && (IsReaperPc(p) <==> c == reaper)
    ensures PcInv((pc - ts)[c := p], state - ts, waits, handoff, linked - ts, reaper)
    ensures HandoffInv((pc - ts)[c := p], state - ts, waits, handoff)
  {
    var pc', state' := (pc - ts)[c := p], state - ts;
    HandoffsWithout(pc, state, waits, handoff, linked, reaper, ts, c, p);
    hide HandoffInv;
    forall t | t in pc'
      ensures PcSuits(pc'[t], state'[t], WaitOf(waits, t), t in handoff, t in linked - ts, t == reaper)
    {
      assert PcSuits(pc[t], state[t], WaitOf(waits, t), t in handoff, t in linked, t == reaper);
    }
  }

  lemma HandoffsWithout(
    pc: Pcs, state: States, waits: Waits, handoff: Handoffs, linked: set<ThreadPtr>, reaper: ThreadPtr,
    ts: set<ThreadPtr>, c: ThreadPtr, p: Pc)
    requires PcInv(pc, state, waits, handoff, linked, reaper) && HandoffInv(pc, state, waits, handoff)
    requires forall t | t in ts :: t in state && state[t] == Terminated
    requires c in pc && c !in ts && c !in waits && c !in handoff && !pc[c].Handoff? && !p.Handoff?
    ensures HandoffInv((pc - ts)[c := p], state - ts, waits, handoff)
  {
    forall t | t in ts && t in pc ensures pc[t] == Dead {
      assert PcSuits(pc[t], state[t], WaitOf(waits, t), t in handoff, t in linked, t == reaper);
    }
    hide PcInv, PcSuits;
  }

  lemma JoinersWithout(
    pc: Pcs, state: States, waits: Waits, detached: set<ThreadPtr>, ts: set<ThreadPtr>, c: ThreadPtr, p: Pc)
    requires JoinInv(pc, state, waits, detached) && !p.InJoin?
    requires forall u | u in pc && u != c && pc[u].InJoin? :: pc[u].thread !in ts
    ensures JoinInv((pc - ts)[c := p], state - ts, waits, detached - ts)
  {
  }

  lemma LockersWithout(held: Held, owner: Owners, pc: Pcs, waits: Waits, ts: set<ThreadPtr>, c: ThreadPtr, p: Pc)
    requires MutexInv(held, owner, pc, waits) && c in pc && !pc[c].InLock? && !p.InLock?
    ensures MutexInv(held, owner, (pc - ts)[c := p], waits)
  {
  }

  lemma ProcessesWithout(k: Kernel, ts: set<ThreadPtr>, populated: set<ProcessPtr>, used: set<ProcessPtr>)
    requires ProcessInv(k.linked, k.process, k.processes, populated, used)
    ensures ProcessInv(k.linked - ts, k.process - ts, Surviving(k, ts), populated, used)
  {
    forall p | p in populated && p in Surviving(k, ts) ensures Populated(k.linked - ts, k.process - ts, p) {
      if forall t | t in ts && t in k.process :: k.process[t] != p {
        var t :| t in k.linked && t in k.process && k.process[t] == p;
        assert t in k.linked - ts && t in k.process - ts;
      }
    }
  }

  lemma DestroyStepKeeps(s: System, k': Kernel, ts: set<ThreadPtr>, p: Pc)
    requires Inv(s) && s.k.current != IDLE && KernelInv(k')
    requires k' == Destroy(s.k, ts).(zombies := k'.zombies)
    requires forall t | t in ts :: t in s.k.state && s.k.state[t] == Terminated
    requires forall u | u in s.pc && u != s.k.current && s.pc[u].InJoin? :: s.pc[u].thread !in ts
    requires !PcOf(s).Handoff? && !PcOf(s).InLock?
    requires QueueOf(p) == None && !p.Handoff? && p != Dead && (IsReaperPc(p) <==> s.k.current == s.k.reaper)
    ensures Inv(DestroyStep(s, k', ts, p))
  {
    var c := s.k.current;
    hide PcInv, HandoffInv, MutexInv, JoinInv, OwnersKnown, ProcessInv, KernelInv, Surviving, PcSuits;
    CurrentFree(s);
    DestroyFrame(s.k, ts);
    PcsWithout(s.pc, s.k.state, s.k.waitQueue, s.handoff, s.k.linked, s.k.reaper, ts, c, p);
    JoinersWithout(s.pc, s.k.state, s.k.waitQueue, s.k.detached, ts, c, p);
    LockersWithout(s.held, s.k.owner, s.pc, s.k.waitQueue, ts, c, p);
    ProcessesWithout(s.k, ts, s.populated, s.usedProcesses);
  }

  lemma DestroyFrame(k: Kernel, ts: set<ThreadPtr>)
    requires CurrentRuns(k) && k.current !in ts
    ensures CurrentRuns(Destroy(k, ts)) && Destroy(k, ts).state.Keys <= k.state.Keys
  {
  }

  // ----- termination -----

  lemma CalmTwice(
    state: States, waits: Waits, state1: States, waits1: Waits, state2: States, waits2: Waits,
    qs: set<QueuePtr>, rs: set<QueuePtr>, c: ThreadPtr)
    requires AllCalm(state, waits, state1, waits1, qs, c) && AllCalm(state1, waits1, state2, waits2, rs, c)
    ensures AllCalm(state, waits, state2, waits2, qs + rs, c)
  {
    forall t | t in state && t != IDLE && t != c ensures Calm(state, waits, state2, waits2, qs + rs, t) {
      assert Calm(state, waits, state1, waits1, qs, t) && Calm(state1, waits1, state2, waits2, rs, t);
    }
  }

  /** Every thread but the one that terminates. */
  lemma CalmSuspend(state: States, waits: Waits, c: ThreadPtr, st: ThreadState)
    requires c in state
    ensures AllCalm(state, waits, state[c := st], waits, {}, c)
  {
  }

  lemma CalmWeaker(state: States, waits: Waits, state': States, waits': Waits, qs: set<QueuePtr>, c: ThreadPtr)
    requires AllCalm(state, waits, state', waits', qs, IDLE)
    ensures AllCalm(state, waits, state', waits', qs, c)
  {
  }

  ghost predicate JoinersWoken'(k: Kernel, k': Kernel) {
    && AllCalm(k.state, k.waitQueue, k'.state, k'.waitQueue, {TerminationQueue(k.current)}, k.current)
    && SameObjects(k, k') && k'.current == k.current
  }

  lemma CalmTerminated(k: Kernel)
    requires CoreInv(k) && CurrentRuns(k) && k.current != IDLE
    ensures var k' := WakeAll(Suspend(k, Terminated), TerminationQueue(k.current));
            JoinersWoken'(k, k') && CoreInv(k') && k.current in k'.state && k'.state[k.current] == Terminated
            && k.current !in k'.waitQueue
  {
    var c, k1, q := k.current, Suspend(k, Terminated), TerminationQueue(k.current);
    var k2 := WakeAll(k1, q);
    SuspendTerminated(k);
    assert k1.current !in k1.waitQueue;
    CalmSuspend(k.state, k.waitQueue, c, Terminated);
    CalmWakeAll(k1, q);
    CalmWeaker(k1.state, k1.waitQueue, k2.state, k2.waitQueue, {q}, c);
    CalmTwice(k.state, k.waitQueue, k1.state, k1.waitQueue, k2.state, k2.waitQueue, {}, {q}, c);
    assert {} + {q} == {q};
    WakeAllKeeps(k1, q);
    WakeAllStates(k1, q);
  }

  lemma CalmTerminate(k: Kernel)
    requires CoreInv(k) && CurrentRuns(k) && k.current != IDLE
    ensures AllCalm(k.state, k.waitQueue, Terminate(k).state, Terminate(k).waitQueue,
                    {TerminationQueue(k.current), ReaperQueue}, k.current)
    ensures SameObjects(k, Terminate(k)) && k.current in Terminate(k).state
    ensures Terminate(k).state[k.current] == Terminated && k.current !in Terminate(k).waitQueue
  {
    hide AllCalm, CoreInv;
    var c, q := k.current, TerminationQueue(k.current);
    var k2 := WakeAll(Suspend(k, Terminated), q);
    CalmTerminated(k);
    if c in k.detached {
      var k3 := k2.(zombies := k2.zombies + [c]);
      ZombiePushed(k2, c);
      var k4 := Wake(k3, ReaperQueue);
      CalmWeaker(k2.state, k2.waitQueue, k4.state, k4.waitQueue, {ReaperQueue}, c);
      CalmTwice(k.state, k.waitQueue, k2.state, k2.waitQueue, k4.state, k4.waitQueue, {q}, {ReaperQueue}, c);
      assert {q} + {ReaperQueue} == {q, ReaperQueue};
    } else {
      MoreQueues(k.state, k.waitQueue, k2.state, k2.waitQueue, {q}, {q, ReaperQueue}, c);
    }
  }

  lemma MoreQueues(
    state: States, waits: Waits, state': States, waits': Waits, qs: set<QueuePtr>, rs: set<QueuePtr>, c: ThreadPtr)
    requires AllCalm(state, waits, state', waits', qs, c) && qs <= rs
    ensures AllCalm(state, waits, state', waits', rs, c)
  {
    forall t | t in state && t != IDLE && t != c ensures Calm(state, waits, state', waits', rs, t) {
      assert Calm(state, waits, state', waits', qs, t);
    }
  }

  /** Pushing a zombie wakes no one but the reaper. */
  lemma ZombiePushed(k: Kernel, c: ThreadPtr)
    requires CoreInv(k) && c in k.state && k.state[c] == Terminated
    ensures var k' := PushZombie(k, c);
            && AllCalm(k.state, k.waitQueue, k'.state, k'.waitQueue, {ReaperQueue}, IDLE)
            && SameObjects(k, k') && c in k'.state && k'.state[c] == Terminated
            && (c !in k.waitQueue ==> c !in k'.waitQueue)
  {
    var k1 := k.(zombies := k.zombies + [c]);
    CalmWake(k1, ReaperQueue);
    if Queue(k, ReaperQueue) != [] {
      CalmUnqueued(k.queue, k.waitQueue, k.state, ReaperQueue);
    }
  }

  lemma ExitStep(s: System)
    requires Inv(s) && s.k.current != IDLE && PcOf(s) == User
    ensures Inv(At(s, KillCurrent(s.k), Dead))
  {
    hide PcInv, HandoffInv, MutexInv, JoinInv, OwnersKnown, ProcessInv, AllCalm;
    var k1, k2, c := Terminate(s.k), KillCurrent(s.k), s.k.current;
    var qs := {TerminationQueue(c), ReaperQueue};
    CurrentFree(s);
    CalmTerminate(s.k);
    KillKeeps(s.k);
    CalmThenSchedule(s.k, k1, k2, qs, c);
    CurrentStep(s, k2, qs, Dead);
  }
}
