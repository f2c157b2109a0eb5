/** What the code does not guarantee, shown on a run of the boot state. */
module TaskCounterexamples {
  import opened Sequences
  import opened TaskState
  import opened TaskSystem
  import opened TaskInvariant
  import opened TaskTheorems
  import opened TaskQueues
  import opened TaskRuns
  import opened TaskLifecycle

  lemma ReachableInitially(count: map<SemaphorePtr, nat>, reaper: ThreadPtr, p: ProcessPtr)
    requires reaper != NULL && reaper != IDLE
    ensures Reachable(Initial(count, reaper, p))
  {
    assert ReachedBy(Initial(count, reaper, p), count, reaper, p, []);
  }

  lemma FiveTicks(s: System)
    requires Reachable(s) && s.k.quantum == SCHEDULER_QUANTUM_TICKS && s.k.current != NULL
    ensures Reachable(s.(k := Switch(s.k)))
  {
    hide Reachable, Successor, Rescheduled;
    var k := s.k;
    var s1, s2, s3, s4 :=
        s.(k := k.(quantum := 4)), s.(k := k.(quantum := 3)), s.(k := k.(quantum := 2)), s.(k := k.(quantum := 1));
    ReachableStep(s, Event.Tick);
    assert Apply(s, Event.Tick) == s1;
    ReachableStep(s1, Event.Tick);
    assert Apply(s1, Event.Tick) == s2;
    ReachableStep(s2, Event.Tick);
    assert Apply(s2, Event.Tick) == s3;
    ReachableStep(s3, Event.Tick);
    assert Apply(s3, Event.Tick) == s4;
    ReachableStep(s4, Event.Tick);
    assert Apply(s4, Event.Tick) == s.(k := Switch(k));
  }

  lemma ThirdThreadCreated() returns (s: System)
    ensures Reachable(s) && s.k.current == IDLE && s.k.ready == [2, 3] && s.k.reaper == 2 && s.k.queue == map[]
    ensures s.k.zombies == [] && s.k.detached == {2} && s.k.quantum == SCHEDULER_QUANTUM_TICKS
    ensures s.k.state == map[IDLE := Running, 2 := Ready, 3 := Ready] && s.pc == map[2 := ReaperTop, 3 := User]
  {
    hide Reachable, Legal, Run;
    var s0 := Initial(map[], 2, 9);
    ReachableInitially(map[], 2, 9);
    var s1 := Apply(s0, ThreadCreate(3, 9));
    ReachableStep(s0, ThreadCreate(3, 9));
    s := Apply(s1, Event.ThreadAdd(3));
    ReachableStep(s1, Event.ThreadAdd(3));
  }

  /** Thread 3, created beside the reaper 2, gets the processor. */
  lemma ThirdThreadRuns() returns (s: System)
    ensures Reachable(s) && s.k.current == 3 && s.k.ready == [2, 3] && s.k.reaper == 2 && s.k.queue == map[]
    ensures s.k.zombies == [] && s.k.detached == {2} && IsThread(s, 3) && s.k.state[3] == Running
    ensures s.pc == map[2 := ReaperTop, 3 := User]
  {
    hide Reachable;
    var s2 := ThirdThreadCreated();
    FiveTicks(s2);
    var s3 := s2.(k := Switch(s2.k));
    FiveTicks(s3);
    s := s3.(k := Switch(s3.k));
    assert IndexOf([2, 3], 2) == 0;
  }

  lemma DetachedThreadExits(s: System)
    requires s.k.current == 3 && s.k.ready == [2, 3] && s.k.queue == map[] && s.k.zombies == []
    requires 3 in s.k.state && s.k.state[3] == Running
    ensures var k' := KillCurrent(Detach(s.k, 3));
            k'.current == 2 && k'.ready == [2] && k'.zombies == [3] && Queue(k', ReaperQueue) == []
  {
    assert Without([2, 3], 3) == [2] by { IndexOfUnique([2, 3], 3, 1); }
  }

  lemma EndsKeepCurrent(k: Kernel, t: ThreadPtr)
    ensures Detach(k, t).current == k.current
  {
  }

  lemma SleeperQueued(k: Kernel)
    ensures k.current in Queue(Sleep(k, ReaperQueue), ReaperQueue)
  {
    QueuesOfSleep(k, ReaperQueue, ReaperQueue);
  }

  lemma EndEvents(s: System)
    ensures forall t :: Apply(s, ThreadDetach(t)) == s.(k := Detach(s.k, t))
    ensures Apply(s, ThreadExit) == At(s, KillCurrent(s.k), Dead)
    ensures Apply(s, ReaperSleep) == At(s, Sleep(s.k, ReaperQueue), ReaperAsleep)
  {
    hide Detach, KillCurrent, Sleep;
  }

  lemma EndsEnabled(s: System)
    ensures InUser(s) ==> Enabled(s, ThreadExit)
    ensures PcOf(s) == ReaperTop ==> Enabled(s, ReaperSleep)
    ensures InUser(s) && IsThread(s, 3) && 3 !in s.k.detached && (forall u | u in s.pc :: s.pc[u] != InJoin(3)) ==>
              Enabled(s, ThreadDetach(3))
  {
  }

  /**
   * A run that ends with the reaper asleep over a zombie: thread 3 detaches itself and terminates
   * while the reaper, which has never run, is not yet in its queue.
   */
  lemma ReaperMissReachable() returns (s: System)
    ensures Reachable(s) && ReaperMisses(s)
  {
    hide Reachable, Detach, KillCurrent, Sleep, Apply, Enabled;
    var s0 := ThirdThreadRuns();
    EndsEnabled(s0);
    EndEvents(s0);
    ReachableStep(s0, ThreadDetach(3));
    var s1 := s0.(k := Detach(s0.k, 3));
    EndsKeepCurrent(s0.k, 3);
    EndsEnabled(s1);
    EndEvents(s1);
    ReachableStep(s1, ThreadExit);
    var s2 := At(s1, KillCurrent(s1.k), Dead);
    DetachedThreadExits(s0);
    EndsAreSteady(s0.k);
    EndsAreSteady(s1.k);
    EndsEnabled(s2);
    EndEvents(s2);
    s := Apply(s2, ReaperSleep);
    ReachableStep(s2, ReaperSleep);
    SleepsAreSteady(s2.k);
    SleeperQueued(s2.k);
  }
}
