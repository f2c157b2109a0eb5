/** How program counters, handoffs and joins survive an event that leaves other threads calm. */
module TaskSteps {
  import opened Sequences
  import opened TaskState
  import opened TaskSystem
  import opened TaskInvariant
  import opened TaskProofs

  // ----- what an operation does to the other threads -----

  predicate Woken(waits: Waits, waits': Waits, state': States, qs: set<QueuePtr>, t: ThreadPtr) {
    t in waits && waits[t] in qs && t !in waits' && t in state' && CanRun(state'[t])
  }

  /** Thread t is as it was, except that it may have been woken from one of the queues `qs`. */
  predicate Calm(
    state: States, waits: Waits, state': States, waits': Waits, qs: set<QueuePtr>, t: ThreadPtr)
  {
    && t in state && t in state'
    && (state'[t] == Terminated <==> state[t] == Terminated)
    && (Woken(waits, waits', state', qs, t) ||
        (WaitOf(waits', t) == WaitOf(waits, t) && (state'[t] == Blocked <==> state[t] == Blocked)))
  }

  /** Every thread but `c`. */
  ghost predicate AllCalm(
    state: States, waits: Waits, state': States, waits': Waits, qs: set<QueuePtr>, c: ThreadPtr)
  {
    state'.Keys == state.Keys &&
    forall t | t in state && t != IDLE && t != c :: Calm(state, waits, state', waits', qs, t)
  }

  /** What an event leaves alone when it only moves program counters, states and queues. */
  ghost predicate SameObjects(k: Kernel, k': Kernel) {
    && k'.owner == k.owner && k'.detached == k.detached && k'.reaper == k.reaper
    && k'.processes == k.processes && k'.linked == k.linked && k'.process == k.process
  }

  lemma CalmThenSchedule(k: Kernel, k1: Kernel, k2: Kernel, qs: set<QueuePtr>, c: ThreadPtr)
    requires AllCalm(k.state, k.waitQueue, k1.state, k1.waitQueue, qs, c) && OnlySchedules(k1, k2)
    ensures AllCalm(k.state, k.waitQueue, k2.state, k2.waitQueue, qs, c)
  {
  }

  lemma CalmSchedule(k: Kernel, k': Kernel)
    requires OnlySchedules(k, k')
    ensures AllCalm(k.state, k.waitQueue, k'.state, k'.waitQueue, {}, IDLE)
  {
  }

  lemma CalmSleep(k: Kernel, q: QueuePtr)
    requires OnlySchedules(Asleep(k, q), Sleep(k, q)) && k.current in k.state
    ensures AllCalm(k.state, k.waitQueue, Sleep(k, q).state, Sleep(k, q).waitQueue, {}, k.current)
    ensures Sleep(k, q).waitQueue == k.waitQueue[k.current := q] && Sleep(k, q).state[k.current] == Blocked
  {
    var k1 := Asleep(k, q);
    assert AllCalm(k.state, k.waitQueue, k1.state, k1.waitQueue, {}, k.current);
    CalmThenSchedule(k, k1, Sleep(k, q), {}, k.current);
  }

  lemma CalmBlock(k: Kernel)
    requires OnlySchedules(Suspend(k, Blocked), Block(k)) && k.current in k.state
    ensures AllCalm(k.state, k.waitQueue, Block(k).state, k.waitQueue, {}, k.current)
    ensures k.current in Block(k).state && PcSuits(SelfBlocked, Block(k).state[k.current], None, false, true, false)
  {
    var k1 := Suspend(k, Blocked);
    assert AllCalm(k.state, k.waitQueue, k1.state, k1.waitQueue, {}, k.current);
    CalmThenSchedule(k, k1, Block(k), {}, k.current);
  }

  lemma CalmUnblock(state: States, waits: Waits, t: ThreadPtr)
    requires t in state
    ensures AllCalm(state, waits, state[t := Ready], waits, {}, t)
  {
  }

  lemma UnblockFrame(k: Kernel, t: ThreadPtr)
    requires CurrentRuns(k) && t != k.current
    ensures SameObjects(k, Unblock(k, t)) && CurrentRuns(Unblock(k, t))
  {
  }

  lemma CalmUnqueued(queue: Queues, waits: Waits, state: States, q: QueuePtr)
    requires QueueInv(queue, waits) && WaitingInv(waits, state) && Waiters(queue, q) != []
    ensures var t := Waiters(queue, q)[0];
            t in waits && waits[t] == q && t in state && t != IDLE && state[t] == Blocked &&
            AllCalm(state, waits, state[t := Ready], waits - {t}, {q}, IDLE)
  {
    assert Waiters(queue, q)[0] in Waiters(queue, q);
  }

  /** Waking appends to the ready list and leaves the running thread alone. */
  lemma WakeFrame(k: Kernel, q: QueuePtr)
    requires CurrentRuns(k) && (Queue(k, q) != [] ==> Queue(k, q)[0] != k.current)
    ensures SameObjects(k, Wake(k, q)) && CurrentRuns(Wake(k, q))
  {
  }

  lemma WakeAllFrame(k: Kernel, q: QueuePtr)
    requires CurrentRuns(k) && k.current !in Queue(k, q)
    ensures SameObjects(k, WakeAll(k, q)) && CurrentRuns(WakeAll(k, q))
  {
  }

  lemma RunningNotQueued(k: Kernel, q: QueuePtr)
    requires CoreInv(k) && CurrentRuns(k)
    ensures k.current !in Queue(k, q)
  {
  }

  lemma CalmWake(k: Kernel, q: QueuePtr)
    requires QueueInv(k.queue, k.waitQueue) && WaitingInv(k.waitQueue, k.state)
    ensures AllCalm(k.state, k.waitQueue, Wake(k, q).state, Wake(k, q).waitQueue, {q}, IDLE)
  {
    if Queue(k, q) != [] {
      CalmUnqueued(k.queue, k.waitQueue, k.state, q);
    }
  }

  lemma CalmWakeAll(k: Kernel, q: QueuePtr)
    requires QueueInv(k.queue, k.waitQueue) && WaitingInv(k.waitQueue, k.state)
    ensures AllCalm(k.state, k.waitQueue, WakeAll(k, q).state, WakeAll(k, q).waitQueue, {q}, IDLE)
  {
    WakeAllStates(k, q);
    assert forall t :: t in WakeAll(k, q).waitQueue <==> t in k.waitQueue && k.waitQueue[t] != q;
  }

  // ----- the invariants on program counters, where only that of `c` moves -----

  ghost predicate OnlyMoves(pc: Pcs, pc': Pcs, c: ThreadPtr) {
    pc'.Keys == pc.Keys && forall t | t in pc && t != c :: pc'[t] == pc[t]
  }

  lemma OneMoves(pc: Pcs, c: ThreadPtr, p: Pc)
    requires c in pc
    ensures OnlyMoves(pc, pc[c := p], c)
  {
  }

  lemma PcKept(
    pc: Pcs, pc': Pcs, state: States, state': States, waits: Waits, waits': Waits, handoff: Handoffs,
    linked: set<ThreadPtr>, reaper: ThreadPtr, qs: set<QueuePtr>, c: ThreadPtr)
    requires PcInv(pc, state, waits, handoff, linked, reaper)
    requires OnlyMoves(pc, pc', c) && AllCalm(state, waits, state', waits', qs, c)
    requires c in pc ==>
               c in state' && PcSuits(pc'[c], state'[c], WaitOf(waits', c), c in handoff, c in linked, c == reaper)
    ensures PcInv(pc', state', waits', handoff, linked, reaper)
  {
    forall t | t in pc'
      ensures PcSuits(pc'[t], state'[t], WaitOf(waits', t), t in handoff, t in linked, t == reaper)
    {
      if t != c {
        assert Calm(state, waits, state', waits', qs, t);
      }
    }
  }

  lemma HandoffKept(
    pc: Pcs, pc': Pcs, state: States, state': States, waits: Waits, waits': Waits, handoff: Handoffs,
    qs: set<QueuePtr>, c: ThreadPtr)
    requires HandoffInv(pc, state, waits, handoff) && pc.Keys == state.Keys - {IDLE}
    requires OnlyMoves(pc, pc', c) && AllCalm(state, waits, state', waits', qs, c)
    requires c in pc ==> c !in handoff && !pc[c].Handoff? && !pc'[c].Handoff?
    ensures HandoffInv(pc', state', waits', handoff)
  {
    forall x | x in handoff
      ensures x in state' && state'[x] == Blocked && x !in waits' && x != c && handoff[x] != c
    {
      assert Calm(state, waits, state', waits', qs, x);
    }
  }

  /** Joiners are woken only when due. */
  ghost predicate JoinersDue(state: States, qs: set<QueuePtr>) {
    forall q | q in qs && q.TerminationQueue? :: q.thread in state && state[q.thread] == Terminated
  }

  /** If `c` starts to join a thread, that thread is there, not detached and has no joiner. */
  ghost predicate MayJoin(pc: Pcs, pc': Pcs, state: States, waits': Waits, detached: set<ThreadPtr>, c: ThreadPtr) {
    c in pc && c in pc' && pc'[c].InJoin? ==>
      var t := pc'[c].thread;
      t in state && t != IDLE && t !in detached && !Joined(pc, t) && c in waits'
  }

  lemma JoinKept(
    pc: Pcs, pc': Pcs, state: States, state': States, waits: Waits, waits': Waits, detached: set<ThreadPtr>,
    qs: set<QueuePtr>, c: ThreadPtr)
    requires JoinInv(pc, state, waits, detached)
    requires forall u | u in pc && pc[u].InJoin? && u in waits :: waits[u] == TerminationQueue(pc[u].thread)
    requires OnlyMoves(pc, pc', c) && AllCalm(state, waits, state', waits', qs, c) && pc.Keys == state.Keys - {IDLE}
    requires JoinersDue(state', qs) && MayJoin(pc, pc', state, waits', detached, c)
    requires c in pc && c in state ==> state[c] != Terminated
    ensures JoinInv(pc', state', waits', detached)
  {
    forall u | u in pc' && pc'[u].InJoin?
      ensures u in waits' || state'[pc'[u].thread] == Terminated
    {
      if u != c {
        assert Calm(state, waits, state', waits', qs, u);
        if state[pc[u].thread] == Terminated {
          assert Calm(state, waits, state', waits', qs, pc[u].thread);
        }
      }
    }
  }

  lemma SleepersWait(pc: Pcs, state: States, waits: Waits, handoff: Handoffs, linked: set<ThreadPtr>, reaper: ThreadPtr)
    requires PcInv(pc, state, waits, handoff, linked, reaper)
    ensures forall u | u in pc && pc[u].InJoin? && u in waits :: waits[u] == TerminationQueue(pc[u].thread)
    ensures forall u | u in pc && pc[u].InLock? && u in waits :: waits[u] == MutexQueue(pc[u].mutex)
  {
    forall u | u in pc && u in waits ensures QueueOf(pc[u]) == Some(waits[u]) {
      assert PcSuits(pc[u], state[u], WaitOf(waits, u), u in handoff, u in linked, u == reaper);
    }
  }

  predicate NoMutexQueue(qs: set<QueuePtr>) {
    forall q | q in qs :: !q.MutexQueue?
  }

  /** Owners and holders unchanged, and nobody comes out of the slow path of mutex_lock. */
  lemma MutexKept(
    held: Held, owner: Owners, pc: Pcs, pc': Pcs, state: States, state': States, waits: Waits, waits': Waits,
    qs: set<QueuePtr>, c: ThreadPtr)
    requires MutexInv(held, owner, pc, waits) && pc.Keys == state.Keys - {IDLE}
    requires forall u | u in pc && pc[u].InLock? && u in waits :: waits[u] == MutexQueue(pc[u].mutex)
    requires OnlyMoves(pc, pc', c) && AllCalm(state, waits, state', waits', qs, c) && NoMutexQueue(qs)
    requires c in pc ==> !pc[c].InLock? && (pc'[c].InLock? ==> c in waits')
    ensures MutexInv(held, owner, pc', waits')
  {
    forall t | t in pc' && pc'[t].InLock? && t !in waits' ensures t !in waits && t != c {
      assert Calm(state, waits, state', waits', qs, t);
    }
    forall m | m in owner && owner[m] in pc && (owner[m], m) !in held ensures owner[m] !in waits' && owner[m] != c {
      assert Calm(state, waits, state', waits', qs, owner[m]);
    }
  }

  // ----- whole events -----

  /** A running thread is in no queue and is no one's new owner. */
  lemma CurrentFree(s: System)
    requires Inv(s) && s.k.current != IDLE
    ensures s.k.current in s.pc && s.k.current in s.k.linked && s.k.current in s.k.state
    ensures s.k.state[s.k.current] == Running && s.k.current !in s.k.waitQueue && s.k.current !in s.handoff
    ensures PcSuits(PcOf(s), Running, None, false, true, s.k.current == s.k.reaper)
  {
    assert Runnable(s.k.state, s.k.linked, s.k.current);
    var c := s.k.current;
    assert PcSuits(s.pc[c], s.k.state[c], WaitOf(s.k.waitQueue, c), c in s.handoff, c in s.k.linked, c == s.k.reaper);
  }

  /** Only `c` moves, not within mutex_unlock; the others stay calm. */
  lemma PlainStep(s: System, k': Kernel, pc': Pcs, qs: set<QueuePtr>, c: ThreadPtr)
    requires Inv(s) && KernelInv(k') && CurrentRuns(k') && SameObjects(s.k, k')
    requires OnlyMoves(s.pc, pc', c) && AllCalm(s.k.state, s.k.waitQueue, k'.state, k'.waitQueue, qs, c)
    requires JoinersDue(k'.state, qs) && NoMutexQueue(qs)
    requires MayJoin(s.pc, pc', s.k.state, k'.waitQueue, s.k.detached, c)
    requires c in s.pc ==>
               && c in s.k.state && s.k.state[c] != Terminated && c !in s.handoff && c in k'.state
               && PcSuits(pc'[c], k'.state[c], WaitOf(k'.waitQueue, c), false, c in s.k.linked, c == s.k.reaper)
               && !s.pc[c].Handoff? && !pc'[c].Handoff?
               && !s.pc[c].InLock? && (pc'[c].InLock? ==> c in k'.waitQueue)
    ensures Inv(s.(k := k', pc := pc'))
  {
    SleepersWait(s.pc, s.k.state, s.k.waitQueue, s.handoff, s.k.linked, s.k.reaper);
    PcKept(s.pc, pc', s.k.state, k'.state, s.k.waitQueue, k'.waitQueue, s.handoff, s.k.linked, s.k.reaper, qs, c);
    HandoffKept(s.pc, pc', s.k.state, k'.state, s.k.waitQueue, k'.waitQueue, s.handoff, qs, c);
    JoinKept(s.pc, pc', s.k.state, k'.state, s.k.waitQueue, k'.waitQueue, s.k.detached, qs, c);
    MutexKept(s.held, s.k.owner, s.pc, pc', s.k.state, k'.state, s.k.waitQueue, k'.waitQueue, qs, c);
  }

  /** Only the kernel's memory changes: ticks, yields, wakes, semaphore counts. */
  lemma KernelStep(s: System, k': Kernel, qs: set<QueuePtr>)
    requires Inv(s) && KernelInv(k') && CurrentRuns(k') && SameObjects(s.k, k')
    requires AllCalm(s.k.state, s.k.waitQueue, k'.state, k'.waitQueue, qs, IDLE)
    requires JoinersDue(k'.state, qs) && NoMutexQueue(qs)
    ensures Inv(s.(k := k'))
  {
    PlainStep(s, k', s.pc, qs, IDLE);
    assert s.(k := k', pc := s.pc) == s.(k := k');
  }

  /** The current thread moves on, to a program counter outside mutex_unlock. */
  lemma CurrentStep(s: System, k': Kernel, qs: set<QueuePtr>, pc: Pc)
    requires Inv(s) && s.k.current != IDLE && KernelInv(k') && CurrentRuns(k') && SameObjects(s.k, k')
    requires AllCalm(s.k.state, s.k.waitQueue, k'.state, k'.waitQueue, qs, s.k.current)
    requires JoinersDue(k'.state, qs) && NoMutexQueue(qs)
    requires !PcOf(s).Handoff? && !PcOf(s).InLock? && !pc.Handoff?
    requires pc.InLock? || pc.InJoin? ==> s.k.current in k'.waitQueue
    requires pc.InJoin? ==> IsThread(s, pc.thread) && pc.thread !in s.k.detached && !Joined(s.pc, pc.thread)
    requires s.k.current in k'.state
    requires PcSuits(pc, k'.state[s.k.current], WaitOf(k'.waitQueue, s.k.current), false, true,
                     s.k.current == s.k.reaper)
    ensures Inv(At(s, k', pc))
  {
    CurrentFree(s);
    OneMoves(s.pc, s.k.current, pc);
    PlainStep(s, k', s.pc[s.k.current := pc], qs, s.k.current);
  }

  lemma ScheduleStep(s: System, k': Kernel)
    requires Inv(s) && OnlySchedules(s.k, k') && KernelInv(k') && CurrentRuns(k')
    ensures Inv(s.(k := k'))
  {
    CalmSchedule(s.k, k');
    KernelStep(s, k', {});
  }

  lemma YieldStep(s: System)
    requires Inv(s)
    ensures Inv(s.(k := Switch(s.k)))
  {
    SwitchKeeps(s.k);
    ScheduleStep(s, Switch(s.k));
  }

  lemma QuantumStep(s: System)
    requires Inv(s) && !TickSwitches(s.k)
    ensures Inv(s.(k := s.k.(quantum := Decremented(s.k.quantum))))
  {
    ScheduleStep(s, s.k.(quantum := Decremented(s.k.quantum)));
  }

  lemma WakeStep(s: System, q: QueuePtr)
    requires Inv(s) && !q.MutexQueue? && !q.TerminationQueue?
    ensures Inv(s.(k := Wake(s.k, q)))
  {
    WakeKeeps(s.k, q);
    RunningNotQueued(s.k, q);
    WakeFrame(s.k, q);
    CalmWake(s.k, q);
    KernelStep(s, Wake(s.k, q), {q});
  }

  lemma WakeAllStep(s: System, q: QueuePtr)
    requires Inv(s) && !q.MutexQueue? && !q.TerminationQueue?
    ensures Inv(s.(k := WakeAll(s.k, q)))
  {
    WakeAllKeepsKernel(s.k, q);
    RunningNotQueued(s.k, q);
    WakeAllFrame(s.k, q);
    CalmWakeAll(s.k, q);
    KernelStep(s, WakeAll(s.k, q), {q});
  }

  /** The current thread goes to sleep on a queue. */
  lemma SleepStep(s: System, q: QueuePtr, pc: Pc)
    requires Inv(s) && s.k.current != IDLE && MaySleep(s.k, q) && QueueOf(pc) == Some(q)
    requires !PcOf(s).Handoff? && !PcOf(s).InLock?
    requires IsReaperPc(pc) <==> s.k.current == s.k.reaper
    requires pc.InJoin? ==> IsThread(s, pc.thread) && pc.thread !in s.k.detached && !Joined(s.pc, pc.thread)
    ensures Inv(At(s, Sleep(s.k, q), pc))
  {
    CurrentFree(s);
    SleepKeeps(s.k, q);
    CalmSleep(s.k, q);
    CurrentStep(s, Sleep(s.k, q), {}, pc);
  }

  lemma MoveStep(s: System, pc: Pc)
    requires Inv(s) && s.k.current != IDLE && !PcOf(s).Handoff? && !PcOf(s).InLock?
    requires !pc.Handoff? && !pc.InLock? && !pc.InJoin? && pc != Dead
    requires IsReaperPc(pc) <==> s.k.current == s.k.reaper
    ensures Inv(At(s, s.k, pc))
  {
    CurrentFree(s);
    CurrentStep(s, s.k, {}, pc);
  }

  lemma BlockStep(s: System)
    requires Inv(s) && s.k.current != IDLE && PcOf(s) == User
    ensures Inv(At(s, Block(s.k), SelfBlocked))
  {
    CurrentFree(s);
    BlockKeeps(s.k);
    CalmBlock(s.k);
    CurrentStep(s, Block(s.k), {}, SelfBlocked);
  }

  lemma CountStep(s: System, x: SemaphorePtr, n: nat)
    requires Inv(s) && Queue(s.k, SemaphoreQueue(x)) == []
    ensures Inv(s.(k := s.k.(count := s.k.count[x := n])))
  {
    CountKeeps(s.k, x, n);
    KernelStep(s, s.k.(count := s.k.count[x := n]), {});
  }

  lemma SelfBlockedFree(
    pc: Pcs, state: States, waits: Waits, handoff: Handoffs, linked: set<ThreadPtr>, reaper: ThreadPtr, t: ThreadPtr)
    requires PcInv(pc, state, waits, handoff, linked, reaper) && HandoffInv(pc, state, waits, handoff)
    requires t in pc && pc[t] == SelfBlocked && state[t] == Blocked
    ensures t !in waits && t !in handoff && t != IDLE && t != reaper && t in linked
  {
    assert PcSuits(pc[t], state[t], WaitOf(waits, t), t in handoff, t in linked, t == reaper);
  }

  /** thread_unblock from user code, of a thread that blocked itself. */
  lemma UnblockStep(s: System, t: ThreadPtr)
    requires Inv(s) && t in s.pc && s.pc[t] == SelfBlocked && t in s.k.state && s.k.state[t] == Blocked
    ensures Inv(s.(k := Unblock(s.k, t)))
  {
    var k' := Unblock(s.k, t);
    SelfBlockedFree(s.pc, s.k.state, s.k.waitQueue, s.handoff, s.k.linked, s.k.reaper, t);
    UnblockKeeps(s.k, t);
    UnblockFrame(s.k, t);
    CalmUnblock(s.k.state, s.k.waitQueue, t);
    PlainStep(s, k', s.pc, {}, t);
    assert s.(k := k', pc := s.pc) == s.(k := k');
  }
}
