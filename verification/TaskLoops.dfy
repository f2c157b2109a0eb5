/** Loops of kernel/task/ one round at a time: wait_queue_wake_all and the reaper's drain. */
module TaskLoops {
  import opened Sequences
  import opened TaskState

  function WokenStates(state: States, ts: seq<ThreadPtr>): States {
    map t | t in state :: if t in ts then Ready else state[t]
  }

  lemma WokenStatesStep(state: States, ts: seq<ThreadPtr>, t: ThreadPtr)
    requires t in state
    ensures WokenStates(state, ts)[t := Ready] == WokenStates(state, ts + [t])
  {
    assert forall u :: u in ts + [t] <==> u in ts || u == t;
  }

  function WaitsLeft(waits: Waits, ts: seq<ThreadPtr>): Waits {
    waits - (set t | t in ts)
  }

  lemma WaitsLeftStep(waits: Waits, ts: seq<ThreadPtr>, t: ThreadPtr)
    ensures WaitsLeft(waits, ts) - {t} == WaitsLeft(waits, ts + [t])
  {
    assert forall u :: u in ts + [t] <==> u in ts || u == t;
  }

  /** Inside wait_queue_wake_all: `removed` are off the queue, `woken` of them are unblocked. */
  ghost predicate Waking(k: Kernel, q: QueuePtr, k': Kernel, removed: seq<ThreadPtr>, woken: seq<ThreadPtr>) {
    var ts := Queue(k, q);
    && removed <= ts
    && k' == k.(waitQueue := WaitsLeft(k.waitQueue, removed), state := WokenStates(k.state, woken),
                ready := k.ready + woken,
                queue := if removed == [] then k.queue else k.queue[q := ts[|removed|..]])
  }

  lemma WakingStarts(k: Kernel, q: QueuePtr)
    ensures Waking(k, q, k, [], [])
  {
    assert WaitsLeft(k.waitQueue, []) == k.waitQueue;
    assert WokenStates(k.state, []) == k.state;
    assert k.ready + [] == k.ready;
  }

  lemma WakingRemoves(k: Kernel, q: QueuePtr, k': Kernel, ts: seq<ThreadPtr>)
    requires Waking(k, q, k', ts, ts)
    ensures Queue(k', q) == Queue(k, q)[|ts|..]
    ensures Queue(k', q) != [] ==> Waking(k, q, Dequeue(k', q), ts + [Queue(k', q)[0]], ts)
  {
    hide WaitsLeft, WokenStates;
    if Queue(k', q) != [] {
      WaitsLeftStep(k.waitQueue, ts, Queue(k', q)[0]);
    }
  }

  lemma WakingUnblocks(k: Kernel, q: QueuePtr, k': Kernel, ts: seq<ThreadPtr>, t: ThreadPtr)
    requires Waking(k, q, k', ts + [t], ts) && t in k.state
    ensures Waking(k, q, Unblock(k', t), ts + [t], ts + [t])
  {
    hide WaitsLeft, WokenStates;
    WokenStatesStep(k.state, ts, t);
  }

  lemma WakingNext(k: Kernel, q: QueuePtr, k': Kernel, n: nat)
    requires NoDup(Queue(k, q)) && n < |Queue(k, q)| && forall t | t in Queue(k, q) :: Unblockable(k, t)
    requires Waking(k, q, k', Queue(k, q)[..n] + [Queue(k, q)[n]], Queue(k, q)[..n])
    ensures Unblockable(k', Queue(k, q)[n]) && Queue(k, q)[n] in k.state
  {
    assert Unblockable(k, Queue(k, q)[n]);
  }

  lemma WaitersExist(k: Kernel, ts: seq<ThreadPtr>)
    requires forall t | t in ts :: Unblockable(k, t)
    ensures forall i | 0 <= i < |ts| :: ts[i] != NULL
  {
    assert forall i | 0 <= i < |ts| :: Unblockable(k, ts[i]);
  }

  lemma WakingEnds(k: Kernel, q: QueuePtr, k': Kernel)
    requires Waking(k, q, k', Queue(k, q), Queue(k, q))
    ensures k' == WakeAll(k, q)
  {
    if Queue(k, q) == [] {
      WakingStarts(k, q);
    }
  }

  /** The ASSERTs that thread_unblock runs into; the idle thread never blocks. */
  predicate Unblockable(k: Kernel, thread: ThreadPtr) {
    thread != NULL && thread != IDLE && thread in k.state && k.state[thread] == Blocked && thread !in k.ready
  }

  lemma SurvivingOne(k: Kernel, t: ThreadPtr)
    requires t in k.process
    ensures Surviving(k, {t}) ==
            if Populated(k.linked - {t}, k.process - {t}, k.process[t]) then k.processes
            else k.processes - {k.process[t]}
  {
  }

  function Members(ts: seq<ThreadPtr>): set<ThreadPtr> {
    set t | t in ts
  }

  lemma MembersAppend(ts: seq<ThreadPtr>, t: ThreadPtr)
    ensures Members(ts + [t]) == Members(ts) + {t}
  {
    assert forall u :: u in ts + [t] <==> u in ts || u == t;
  }

  /** reaper_entry's loop after n threads are freed and `popped` are off the zombie list. */
  ghost function DrainedUpTo(k: Kernel, n: nat, popped: nat): Kernel
    requires n <= |k.zombies| && popped <= |k.zombies|
  {
    Destroy(k, Members(k.zombies[..n])).(zombies := k.zombies[popped..])
  }

  /** Freeing one more thread is freeing them together. */
  lemma SurvivingMore(k: Kernel, ts: set<ThreadPtr>, t: ThreadPtr)
    requires t !in ts && t in k.process
    ensures Surviving(Destroy(k, ts), {t}) == Surviving(k, ts + {t})
  {
    var k1 := Destroy(k, ts);
    assert k1.linked - {t} == k.linked - (ts + {t});
    assert k1.process - {t} == k.process - (ts + {t});
    forall p ensures p in Surviving(k1, {t}) <==> p in Surviving(k, ts + {t}) {
      if k.process[t] != p && Populated(k.linked - ts, k.process - ts, p) {
        var u :| u in k.linked - ts && u in k.process - ts && k.process[u] == p;
        assert u in k.linked - (ts + {t}) && u in k.process - (ts + {t});
      }
    }
  }

  lemma DrainStarts(k: Kernel)
    ensures DrainedUpTo(k, 0, 0) == k
  {
    assert k.zombies[0..] == k.zombies;
    assert Members(k.zombies[..0]) == {};
    assert k.state - {} == k.state && k.process - {} == k.process;
    SurvivingNone(k);
  }

  lemma SurvivingNone(k: Kernel)
    ensures Surviving(k, {}) == k.processes
  {
  }

  /** The zombie at the loop head is still there, and freeing it is the next step. */
  lemma DrainStep(k: Kernel, n: nat)
    requires NoDup(k.zombies) && n < |k.zombies| && k.zombies[n] in k.process && k.zombies[n] in k.state
    ensures var k1, t := DrainedUpTo(k, n, n + 1), k.zombies[n];
            && t in k1.process && t in k1.state && k1.state[t] == k.state[t]
            && Destroy(k1, {t}) == DrainedUpTo(k, n + 1, n + 1)
  {
    hide Surviving, Members;
    var t := k.zombies[n];
    var ts := Members(k.zombies[..n]);
    var k1 := DrainedUpTo(k, n, n + 1);
    NotYetFreed(k.zombies, n);
    assert k.zombies[..n + 1] == k.zombies[..n] + [t];
    MembersAppend(k.zombies[..n], t);
    assert k1.state - {t} == k.state - (ts + {t});
    assert k1.process - {t} == k.process - (ts + {t});
    assert k1.linked - {t} == k.linked - (ts + {t});
    assert k1.detached - {t} == k.detached - (ts + {t});
    SurvivingMore(k, ts, t);
    SurvivingIgnoresZombies(Destroy(k, ts), k.zombies[n + 1..], {t});
  }

  lemma NotYetFreed(ts: seq<ThreadPtr>, n: nat)
    requires NoDup(ts) && n < |ts|
    ensures ts[n] !in Members(ts[..n])
  {
  }

  lemma DrainPops(k: Kernel, n: nat)
    requires n <= |k.zombies|
    ensures var k1 := DrainedUpTo(k, n, n);
            && k1.zombies == k.zombies[n..]
            && (n < |k.zombies| ==> k1.(zombies := k1.zombies[1..]) == DrainedUpTo(k, n, n + 1))
  {
    hide Surviving, Members;
  }

  lemma SurvivingIgnoresZombies(k: Kernel, zombies: seq<ThreadPtr>, ts: set<ThreadPtr>)
    ensures Surviving(k.(zombies := zombies), ts) == Surviving(k, ts)
  {
  }

  lemma DrainEnds(k: Kernel)
    ensures DrainedUpTo(k, |k.zombies|, |k.zombies|) == Drain(k)
  {
    hide Surviving;
    assert Members(k.zombies) == set t | t in k.zombies;
    assert k.zombies[..|k.zombies|] == k.zombies;
  }

  lemma SuspendKeepsUnblockable(k: Kernel)
    requires NoDup(k.ready) && k.current in k.state && k.state[k.current] != Blocked
    ensures !Unblockable(k, k.current) && forall t | Unblockable(k, t) :: Unblockable(Suspend(k, Terminated), t)
  {
    WithoutMembers(k.ready, k.current);
  }

  lemma WakeAllKeepsUnblockable(k: Kernel, q: QueuePtr)
    ensures forall t | Unblockable(k, t) && t !in Queue(k, q) :: Unblockable(WakeAll(k, q), t)
    ensures forall r | r != q :: Queue(WakeAll(k, q), r) == Queue(k, r)
    ensures forall t | t in k.state && t !in Queue(k, q) ::
              t in WakeAll(k, q).state && WakeAll(k, q).state[t] == k.state[t]
    ensures WakeAll(k, q).zombies == k.zombies && WakeAll(k, q).detached == k.detached
  {
  }

  lemma TerminateKeepsSchedulable(k: Kernel)
    requires IDLE !in k.ready && NULL !in k.ready && NULL !in k.state && k.current != NULL && NoDup(k.ready)
    requires forall t | t in Queue(k, TerminationQueue(k.current)) :: Unblockable(k, t)
    requires forall t | t in Queue(k, ReaperQueue) :: Unblockable(k, t)
    ensures IDLE !in Terminate(k).ready && NULL !in Terminate(k).ready && NULL !in Terminate(k).state
    ensures Terminate(k).current == k.current
  {
    WithoutMembers(k.ready, k.current);
    hide Without;
    var q := TerminationQueue(k.current);
    var k1 := WakeAll(Suspend(k, Terminated), q);
    assert Unblockable(k, IDLE) == Unblockable(k, NULL) == false;
    assert IDLE !in k1.ready && NULL !in k1.ready;
    if Queue(k, ReaperQueue) != [] {
      assert Unblockable(k, Queue(k, ReaperQueue)[0]);
      assert Queue(k1, ReaperQueue) == Queue(k, ReaperQueue);
    }
  }
}
