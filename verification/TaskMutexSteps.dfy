/** The steps of mutex_lock, mutex_unlock and condvar_wait keep the invariant. */
module TaskMutexSteps {
  import opened Sequences
  import opened TaskState
  import opened TaskSystem
  import opened TaskInvariant
  import opened TaskProofs
  import opened TaskSteps

  // ----- ownership -----

  lemma MutexTaken(held: Held, owner: Owners, pc: Pcs, waits: Waits, c: ThreadPtr, m: MutexPtr)
    requires MutexInv(held, owner, pc, waits) && m !in owner && c in pc && !pc[c].InLock?
    ensures MutexInv(held + {(c, m)}, owner[m := c], pc, waits)
  {
  }

  /** A thread that comes back from the queue already is the owner. */
  lemma MutexGranted(held: Held, owner: Owners, pc: Pcs, waits: Waits, c: ThreadPtr, m: MutexPtr)
    requires MutexInv(held, owner, pc, waits) && c in pc && pc[c].InLock? && pc[c].mutex == m && c !in waits
    ensures MutexInv(held + {(c, m)}, owner, pc[c := User], waits) && m in owner && owner[m] == c
  {
  }

  lemma MutexFreed(held: Held, owner: Owners, pc: Pcs, waits: Waits, c: ThreadPtr, m: MutexPtr)
    requires MutexInv(held, owner, pc, waits) && m in owner && owner[m] == c && c in pc && !pc[c].InLock?
    ensures MutexInv(held - {(c, m)}, owner - {m}, pc, waits)
  {
  }

  /** Ownership passes to `x`, asleep in mutex_lock, while `c` moves on to `pc'[c]`. */
  lemma MutexPassed(
    held: Held, owner: Owners, pc: Pcs, pc': Pcs, waits: Waits, waits': Waits, c: ThreadPtr, m: MutexPtr, x: ThreadPtr)
    requires MutexInv(held, owner, pc, waits) && OnlyMoves(pc, pc', c)
    requires m in owner && owner[m] == c && c in pc && !pc[c].InLock? && !pc'[c].InLock?
    requires x in pc && x in waits && x != c && pc[x].InLock? && pc[x].mutex == m
    requires forall t | t != c :: t in waits' <==> t in waits && t != x
    ensures MutexInv(held - {(c, m)}, owner[m := x], pc', waits')
  {
  }

  lemma OwnersStayKnown(held: Held, owner: Owners, used: set<ThreadPtr>, c: ThreadPtr, x: ThreadPtr, m: MutexPtr)
    requires OwnersKnown(held, owner, used) && c in used && x in used && x != IDLE && x != NULL
    ensures OwnersKnown(held + {(c, m)}, owner[m := x], used) && OwnersKnown(held - {(c, m)}, owner[m := x], used)
    ensures OwnersKnown(held + {(c, m)}, owner, used) && OwnersKnown(held - {(c, m)}, owner - {m}, used)
  {
  }

  // ----- mutex_lock -----

  lemma OwnerStep(s: System, held': Held, owner': Owners)
    requires Inv(s) && KernelInv(s.k.(owner := owner')) && MutexInv(held', owner', s.pc, s.k.waitQueue)
    requires OwnersKnown(held', owner', s.usedThreads)
    ensures Inv(s.(k := s.k.(owner := owner'), held := held'))
  {
  }

  lemma TakeStep(s: System, m: MutexPtr)
    requires Inv(s) && s.k.current != IDLE && m !in s.k.owner && PcOf(s) == User
    ensures Inv(s.(k := s.k.(owner := s.k.owner[m := s.k.current]), held := s.held + {(s.k.current, m)}))
  {
    var c := s.k.current;
    CurrentFree(s);
    MutexTaken(s.held, s.k.owner, s.pc, s.k.waitQueue, c, m);
    OwnersStayKnown(s.held, s.k.owner, s.usedThreads, c, c, m);
    OwnerKeeps(s.k, s.k.owner[m := c]);
    OwnerStep(s, s.held + {(c, m)}, s.k.owner[m := c]);
  }

  lemma LockFastStep(s: System, m: MutexPtr, inWait: bool)
    requires Inv(s) && s.k.current != IDLE && m !in s.k.owner && (PcOf(s) == User || PcOf(s).Relock?)
    ensures Inv(LockStep(s, m, inWait))
  {
    CurrentFree(s);
    MoveStep(s, User);
    TakeStep(At(s, s.k, User), m);
  }

  lemma LockSlowStep(s: System, m: MutexPtr, inWait: bool)
    requires Inv(s) && s.k.current != IDLE && m in s.k.owner && (PcOf(s) == User || PcOf(s).Relock?)
    ensures Inv(LockStep(s, m, inWait))
  {
    CurrentFree(s);
    SleepStep(s, MutexQueue(m), InLock(m, inWait));
  }

  lemma LockReturnStep(s: System, m: MutexPtr)
    requires Inv(s) && s.k.current != IDLE && PcOf(s).InLock? && PcOf(s).mutex == m
    ensures Inv(At(s, s.k, User).(held := s.held + {(s.k.current, m)}))
  {
    var c := s.k.current;
    CurrentFree(s);
    OneMoves(s.pc, c, User);
    PcKept(s.pc, s.pc[c := User], s.k.state, s.k.state, s.k.waitQueue, s.k.waitQueue, s.handoff, s.k.linked,
      s.k.reaper, {}, c);
    HandoffKept(s.pc, s.pc[c := User], s.k.state, s.k.state, s.k.waitQueue, s.k.waitQueue, s.handoff, {}, c);
    SleepersWait(s.pc, s.k.state, s.k.waitQueue, s.handoff, s.k.linked, s.k.reaper);
    JoinKept(s.pc, s.pc[c := User], s.k.state, s.k.state, s.k.waitQueue, s.k.waitQueue, s.k.detached, {}, c);
    MutexGranted(s.held, s.k.owner, s.pc, s.k.waitQueue, c, m);
    OwnersStayKnown(s.held, s.k.owner, s.usedThreads, c, c, m);
  }

  // ----- mutex_unlock -----

  lemma FreeStep(s: System, m: MutexPtr)
    requires Inv(s) && s.k.current != IDLE && PcOf(s) == User && m in s.k.owner && s.k.owner[m] == s.k.current
    requires Queue(s.k, MutexQueue(m)) == []
    ensures Inv(UnlockStep(s, m))
  {
    var c := s.k.current;
    CurrentFree(s);
    MutexFreed(s.held, s.k.owner, s.pc, s.k.waitQueue, c, m);
    OwnersStayKnown(s.held, s.k.owner, s.usedThreads, c, c, m);
    ReleaseKeeps(s.k, m);
    OwnerStep(s, s.held - {(c, m)}, s.k.owner - {m});
  }

  lemma LockerWaits(
    pc: Pcs, state: States, waits: Waits, handoff: Handoffs, linked: set<ThreadPtr>, reaper: ThreadPtr,
    m: MutexPtr, x: ThreadPtr)
    requires PcInv(pc, state, waits, handoff, linked, reaper) && WaitingInv(waits, state)
    requires x in waits && waits[x] == MutexQueue(m)
    ensures x in pc && pc[x].InLock? && pc[x].mutex == m && x in state && state[x] == Blocked && x != IDLE
  {
    assert PcSuits(pc[x], state[x], WaitOf(waits, x), x in handoff, x in linked, x == reaper);
  }

  lemma HeadQueued(queue: Queues, waits: Waits, q: QueuePtr)
    requires QueueInv(queue, waits) && Waiters(queue, q) != []
    ensures Waiters(queue, q)[0] in waits && waits[Waiters(queue, q)[0]] == q
  {
    assert Waiters(queue, q)[0] in Waiters(queue, q);
  }

  /** The oldest waiter of a mutex is asleep in mutex_lock on it. */
  lemma HeadWaits(s: System, m: MutexPtr)
    requires Inv(s) && Queue(s.k, MutexQueue(m)) != []
    ensures var x := Queue(s.k, MutexQueue(m))[0];
            && x in s.k.waitQueue && x in s.pc && s.pc[x].InLock? && s.pc[x].mutex == m
            && x in s.k.state && s.k.state[x] == Blocked && x in s.usedThreads
  {
    HeadQueued(s.k.queue, s.k.waitQueue, MutexQueue(m));
    LockerWaits(s.pc, s.k.state, s.k.waitQueue, s.handoff, s.k.linked, s.k.reaper, m, Queue(s.k, MutexQueue(m))[0]);
  }

  lemma HandoffStarts(
    pc: Pcs, state: States, waits: Waits, handoff: Handoffs, linked: set<ThreadPtr>, reaper: ThreadPtr,
    c: ThreadPtr, m: MutexPtr, x: ThreadPtr)
    requires PcInv(pc, state, waits, handoff, linked, reaper) && HandoffInv(pc, state, waits, handoff)
    requires c in pc && c in state && state[c] == Running && c !in waits && pc[c] == User && c in linked && c != reaper
    requires x in pc && x in waits && pc[x].InLock? && pc[x].mutex == m && x in state && state[x] == Blocked
    ensures PcInv(pc[c := Handoff(m, x)], state, waits - {x}, handoff[x := c], linked, reaper)
    ensures HandoffInv(pc[c := Handoff(m, x)], state, waits - {x}, handoff[x := c])
  {
    var pc' := pc[c := Handoff(m, x)];
    var waits' := waits - {x};
    assert x !in handoff && c !in handoff;
    HandoffAdded(pc, state, waits, handoff, c, m, x);
    hide HandoffInv;
    forall t | t in pc'
      ensures PcSuits(pc'[t], state[t], WaitOf(waits', t), t in handoff[x := c], t in linked, t == reaper)
    {
      assert PcSuits(pc[t], state[t], WaitOf(waits, t), t in handoff, t in linked, t == reaper);
    }
  }

  lemma HandoffAdded(pc: Pcs, state: States, waits: Waits, handoff: Handoffs, c: ThreadPtr, m: MutexPtr, x: ThreadPtr)
    requires HandoffInv(pc, state, waits, handoff) && c in pc && pc[c] == User
    requires x in pc && x in waits && pc[x].InLock? && pc[x].mutex == m && x in state && state[x] == Blocked
    ensures HandoffInv(pc[c := Handoff(m, x)], state, waits - {x}, handoff[x := c])
  {
  }

  lemma JoinersUnmoved(pc: Pcs, pc': Pcs, state: States, waits: Waits, waits': Waits, detached: set<ThreadPtr>)
    requires JoinInv(pc, state, waits, detached)
    requires forall u | u in pc' && pc'[u].InJoin? :: u in pc && pc[u] == pc'[u] && (u in waits ==> u in waits')
    ensures JoinInv(pc', state, waits', detached)
  {
  }

  lemma PassStep(s: System, m: MutexPtr)
    requires Inv(s) && s.k.current != IDLE && PcOf(s) == User && m in s.k.owner && s.k.owner[m] == s.k.current
    requires Queue(s.k, MutexQueue(m)) != []
    ensures Inv(UnlockStep(s, m))
  {
    var c := s.k.current;
    var x := Queue(s.k, MutexQueue(m))[0];
    var pc', waits' := s.pc[c := Handoff(m, x)], s.k.waitQueue - {x};
    CurrentFree(s);
    HeadWaits(s, m);
    OneMoves(s.pc, c, Handoff(m, x));
    HandoffStarts(s.pc, s.k.state, s.k.waitQueue, s.handoff, s.k.linked, s.k.reaper, c, m, x);
    MutexPassed(s.held, s.k.owner, s.pc, pc', s.k.waitQueue, waits', c, m, x);
    OwnersStayKnown(s.held, s.k.owner, s.usedThreads, c, x, m);
    HeadIsNoJoiner(s.pc, pc', s.k.state, s.k.waitQueue, s.k.detached, c, x);
    ReleaseKeeps(s.k, m);
    ReleaseFrame(s.k, m);
  }

  lemma HeadIsNoJoiner(
    pc: Pcs, pc': Pcs, state: States, waits: Waits, detached: set<ThreadPtr>, c: ThreadPtr, x: ThreadPtr)
    requires JoinInv(pc, state, waits, detached) && OnlyMoves(pc, pc', c) && c in pc && !pc'[c].InJoin?
    requires x in pc && !pc[x].InJoin?
    ensures JoinInv(pc', state, waits - {x}, detached)
  {
  }

  lemma ReleaseFrame(k: Kernel, m: MutexPtr)
    requires Queue(k, MutexQueue(m)) != []
    ensures var x := Queue(k, MutexQueue(m))[0];
            && MutexRelease(k, m).state == k.state && MutexRelease(k, m).current == k.current
            && MutexRelease(k, m).waitQueue == k.waitQueue - {x} && MutexRelease(k, m).owner == k.owner[m := x]
            && (CurrentRuns(k) ==> CurrentRuns(MutexRelease(k, m)))
            && MutexRelease(k, m).linked == k.linked && MutexRelease(k, m).process == k.process
            && MutexRelease(k, m).processes == k.processes && MutexRelease(k, m).detached == k.detached
            && MutexRelease(k, m).reaper == k.reaper
  {
  }

  lemma HandoffEnds(
    pc: Pcs, state: States, waits: Waits, handoff: Handoffs, linked: set<ThreadPtr>, reaper: ThreadPtr,
    c: ThreadPtr, m: MutexPtr, x: ThreadPtr)
    requires PcInv(pc, state, waits, handoff, linked, reaper) && HandoffInv(pc, state, waits, handoff)
    requires c in pc && c in state && state[c] == Running && pc[c] == Handoff(m, x)
    ensures x in handoff && x in state && x != IDLE && state[x] == Blocked && x !in waits && x in pc && pc[x].InLock?
    ensures PcInv(pc[c := User], state[x := Ready], waits, handoff - {x}, linked, reaper)
    ensures HandoffInv(pc[c := User], state[x := Ready], waits, handoff - {x})
  {
    var pc', state', handoff' := pc[c := User], state[x := Ready], handoff - {x};
    HandoffRemoved(pc, state, waits, handoff, c, m, x);
    assert PcSuits(pc[x], state[x], WaitOf(waits, x), x in handoff, x in linked, x == reaper);
    hide HandoffInv;
    forall t | t in pc'
      ensures PcSuits(pc'[t], state'[t], WaitOf(waits, t), t in handoff', t in linked, t == reaper)
    {
      assert PcSuits(pc[t], state[t], WaitOf(waits, t), t in handoff, t in linked, t == reaper);
    }
  }

  lemma HandoffRemoved(pc: Pcs, state: States, waits: Waits, handoff: Handoffs, c: ThreadPtr, m: MutexPtr, x: ThreadPtr)
    requires HandoffInv(pc, state, waits, handoff) && c in pc && pc[c] == Handoff(m, x)
    ensures x in handoff && x in state && state[x] == Blocked && x !in waits && x in pc && pc[x].InLock?
    ensures HandoffInv(pc[c := User], state[x := Ready], waits, handoff - {x})
  {
  }

  lemma TerminatedUnmoved(pc: Pcs, state: States, waits: Waits, detached: set<ThreadPtr>, x: ThreadPtr)
    requires JoinInv(pc, state, waits, detached) && x in state && state[x] != Terminated
    ensures JoinInv(pc, state[x := Ready], waits, detached)
  {
  }

  lemma LockersUnmoved(held: Held, owner: Owners, pc: Pcs, waits: Waits, c: ThreadPtr)
    requires MutexInv(held, owner, pc, waits) && c in pc && !pc[c].InLock?
    ensures MutexInv(held, owner, pc[c := User], waits)
  {
  }

  lemma HandoffWakeStep(s: System, m: MutexPtr, x: ThreadPtr)
    requires Inv(s) && s.k.current != IDLE && PcOf(s) == Handoff(m, x)
    ensures Inv(At(s, Unblock(s.k, x), User).(handoff := s.handoff - {x}))
  {
    hide PcInv, HandoffInv, MutexInv, JoinInv, OwnersKnown, ProcessInv, KernelInv;
    var c := s.k.current;
    CurrentFree(s);
    HandoffEnds(s.pc, s.k.state, s.k.waitQueue, s.handoff, s.k.linked, s.k.reaper, c, m, x);
    UnblockKeeps(s.k, x);
    UnblockFrame(s.k, x);
    JoinersUnmoved(s.pc, s.pc[c := User], s.k.state, s.k.waitQueue, s.k.waitQueue, s.k.detached);
    TerminatedUnmoved(s.pc[c := User], s.k.state, s.k.waitQueue, s.k.detached, x);
    LockersUnmoved(s.held, s.k.owner, s.pc, s.k.waitQueue, c);
  }

  // ----- condvar_wait -----

  /** Release and sleep in one section: unlock, unblock the new owner, join the queue. */
  lemma WaitStep(s: System, cv: CondvarPtr, m: MutexPtr)
    requires Inv(s) && s.k.current != IDLE && PcOf(s) == User && m in s.k.owner && s.k.owner[m] == s.k.current
    ensures Inv(At(s, CondvarSleep(s.k, cv, m), InWait(cv, m)).(held := s.held - {(s.k.current, m)}))
  {
    hide PcInv, HandoffInv, MutexInv, JoinInv, OwnersKnown, ProcessInv, KernelInv;
    CurrentFree(s);
    if Queue(s.k, MutexQueue(m)) == [] {
      FreeStep(s, m);
      SleepStep(UnlockStep(s, m), CondvarQueue(cv), InWait(cv, m));
    } else {
      PassedOn(s, m);
      var s2 := s.(k := TaskState.MutexUnlock(s.k, m), held := s.held - {(s.k.current, m)});
      hide TaskState.MutexUnlock;
      SleepStep(s2, CondvarQueue(cv), InWait(cv, m));
    }
  }

  /** Both sections of mutex_unlock in one, when somebody waits. */
  lemma PassedOn(s: System, m: MutexPtr)
    requires Inv(s) && s.k.current != IDLE && PcOf(s) == User && m in s.k.owner && s.k.owner[m] == s.k.current
    requires Queue(s.k, MutexQueue(m)) != []
    ensures var s2 := s.(k := TaskState.MutexUnlock(s.k, m), held := s.held - {(s.k.current, m)});
            Inv(s2) && s2.k.current == s.k.current && s2.k.reaper == s.k.reaper
  {
    hide Inv, PcInv, HandoffInv, MutexInv, JoinInv, OwnersKnown, ProcessInv, KernelInv;
    var c, x, s1 := s.k.current, Queue(s.k, MutexQueue(m))[0], UnlockStep(s, m);
    CurrentFree(s);
    HeadWaits(s, m);
    PassStep(s, m);
    ReleaseFrame(s.k, m);
    HandoffWakeStep(s1, m, x);
    HandoffApart(s, x);
    assert s.handoff[x := c] - {x} == s.handoff;
    assert s.pc[c := Handoff(m, x)][c := User] == s.pc;
    var s2 := s.(k := TaskState.MutexUnlock(s.k, m), held := s.held - {(c, m)});
    assert At(s1, Unblock(s1.k, x), User).(handoff := s1.handoff - {x}) == s2;
  }

  lemma HandoffApart(s: System, x: ThreadPtr)
    requires Inv(s) && x in s.k.waitQueue
    ensures x !in s.handoff
  {
  }
}
