/**
 * The interleaved system: every event is one interrupts-off section run by the thread
 * `current`, and any other event, a timer tick among them, may come between two of them.
 * A program counter says where in a kernel call each thread is.
 */
module TaskSystem {
  import opened Sequences
  import opened TaskState

  datatype Pc =
    | User                                             // outside the kernel calls below
    | InLock(mutex: MutexPtr, inWait: bool)            // asleep in, or resuming from, mutex_lock
    | Handoff(mutex: MutexPtr, target: ThreadPtr)      // mutex_unlock, before thread_unblock
    | InWait(condvar: CondvarPtr, mutex: MutexPtr)     // asleep in condvar_wait
    | Relock(mutex: MutexPtr)                          // condvar_wait, before its mutex_lock
    | InAcquire(semaphore: SemaphorePtr)
    | InJoin(thread: ThreadPtr)
    | SelfBlocked                                      // in thread_block
    | ReaperTop | ReaperAsleep | ReaperDrain           // reaper_entry
    | Dead                                             // terminated

  type Pcs = map<ThreadPtr, Pc>
  type Held = set<(ThreadPtr, MutexPtr)>
  type Handoffs = map<ThreadPtr, ThreadPtr>

  /** The kernel's memory, the program counters, and history the code does not keep. */
  datatype System = System(
    k: Kernel,
    pc: Pcs,
    held: Held,                              // past mutex_lock, not yet in mutex_unlock
    handoff: Handoffs,                       // new owner not yet unblocked -> old owner
    usedThreads: set<ThreadPtr>,
    usedProcesses: set<ProcessPtr>,
    populated: set<ProcessPtr>)              // processes to which a thread was ever added

  datatype Event =
    | Tick
    | Yield
    | MutexLock(mutex: MutexPtr)
    | MutexLockReturn
    | MutexUnlock(mutex: MutexPtr)
    | MutexUnlockWake
    | CondvarWait(condvar: CondvarPtr, mutex: MutexPtr)
    | CondvarWaitResume
    | CondvarWaitRelock
    | CondvarSignal(condvar: CondvarPtr)
    | CondvarBroadcast(condvar: CondvarPtr)
    | SemaphoreAcquire(semaphore: SemaphorePtr)
    | SemaphoreAcquireReturn
    | SemaphoreRelease(semaphore: SemaphorePtr)
    | ThreadBlock
    | ThreadBlockReturn
    | ThreadUnblock(thread: ThreadPtr)
    | ProcessCreate(process: ProcessPtr)
    | ThreadCreate(thread: ThreadPtr, process: ProcessPtr)
    | ThreadAdd(thread: ThreadPtr)
    | ThreadJoin(thread: ThreadPtr)
    | ThreadJoinReturn
    | ThreadDetach(thread: ThreadPtr)
    | ThreadExit
    | ReaperSleep
    | ReaperResume
    | ReaperDrainAll

  function PcOf(s: System): Pc {
    if s.k.current in s.pc then s.pc[s.k.current] else Dead
  }

  predicate InUser(s: System) {
    PcOf(s) == User
  }

  ghost predicate Joined(pc: Pcs, t: ThreadPtr) {
    exists u :: u in pc && pc[u] == InJoin(t)
  }

  /** A created thread that is not the idle thread. */
  predicate IsThread(s: System, t: ThreadPtr) {
    t in s.k.state && t != IDLE
  }

  /**
   * When an event may happen: the program counter is there, and callers keep the contract of
   * the call. Joining and detaching name a live thread, a joinee has one joiner and is never
   * detached, and thread_unblock is only for threads that blocked themselves.
   */
  ghost predicate Enabled(s: System, e: Event) {
    match e
    case Tick => true
    case Yield => InUser(s)
    case MutexLock(m) => InUser(s)
    case MutexLockReturn => PcOf(s).InLock?
    case MutexUnlock(m) => InUser(s) && m in s.k.owner && s.k.owner[m] == s.k.current
    case MutexUnlockWake => PcOf(s).Handoff?
    case CondvarWait(c, m) => InUser(s) && m in s.k.owner && s.k.owner[m] == s.k.current
    case CondvarWaitResume => PcOf(s).InWait?
    case CondvarWaitRelock => PcOf(s).Relock?
    case CondvarSignal(c) => InUser(s)
    case CondvarBroadcast(c) => InUser(s)
    case SemaphoreAcquire(sem) => InUser(s) && sem in s.k.count
    case SemaphoreAcquireReturn => PcOf(s).InAcquire?
    case SemaphoreRelease(sem) => InUser(s) && sem in s.k.count && s.k.count[sem] < UINT32_MODULUS - 1
    case ThreadBlock => InUser(s)
    case ThreadBlockReturn => PcOf(s).SelfBlocked?
    case ThreadUnblock(t) =>
      InUser(s) && IsThread(s, t) && t in s.pc && s.pc[t] == SelfBlocked && s.k.state[t] == Blocked
    case ProcessCreate(p) => (InUser(s) || s.k.current == IDLE) && p !in s.usedProcesses
    case ThreadCreate(t, p) =>
      (InUser(s) || s.k.current == IDLE) && t !in s.usedThreads && p in s.k.processes
    case ThreadAdd(t) =>
      (InUser(s) || s.k.current == IDLE) && IsThread(s, t) && t !in s.k.linked &&
      t in s.k.process && s.k.process[t] in s.k.processes
    case ThreadJoin(t) => InUser(s) && IsThread(s, t) && t !in s.k.detached && !Joined(s.pc, t)
    case ThreadJoinReturn => PcOf(s).InJoin?
    case ThreadDetach(t) => InUser(s) && IsThread(s, t) && t !in s.k.detached && !Joined(s.pc, t)
    case ThreadExit => InUser(s)
    case ReaperSleep => PcOf(s).ReaperTop?
    case ReaperResume => PcOf(s).ReaperAsleep?
    case ReaperDrainAll => PcOf(s).ReaperDrain?
  }

  function At(s: System, k: Kernel, pc: Pc): System {
    s.(k := k, pc := s.pc[s.k.current := pc])
  }

  /** mutex_lock entered from user code, or at the end of condvar_wait. */
  function LockStep(s: System, m: MutexPtr, inWait: bool): System {
    var c := s.k.current;
    if m in s.k.owner then At(s, TaskState.MutexLock(s.k, m), InLock(m, inWait))
    else At(s, TaskState.MutexLock(s.k, m), User).(held := s.held + {(c, m)})
  }

  function UnlockStep(s: System, m: MutexPtr): System {
    var c := s.k.current;
    var q := Queue(s.k, MutexQueue(m));
    var s' := s.(k := MutexRelease(s.k, m), held := s.held - {(c, m)});
    if q == [] then s'
    else s'.(pc := s.pc[c := Handoff(m, q[0])], handoff := s.handoff[q[0] := c])
  }

  ghost function DestroyStep(s: System, k: Kernel, gone: set<ThreadPtr>, pc: Pc): System {
    s.(k := k, pc := (s.pc - gone)[s.k.current := pc])
  }

  ghost function Apply(s: System, e: Event): System {
    var k, c := s.k, s.k.current;
    match e
    case Tick => s.(k := TaskState.Tick(k))
    case Yield => s.(k := TaskState.Yield(k))
    case MutexLock(m) => LockStep(s, m, false)
    case MutexLockReturn =>
      if PcOf(s).InLock? then At(s, k, User).(held := s.held + {(c, PcOf(s).mutex)}) else s
    case MutexUnlock(m) => UnlockStep(s, m)
    case MutexUnlockWake =>
      if PcOf(s).Handoff? then
        At(s, Unblock(k, PcOf(s).target), User).(handoff := s.handoff - {PcOf(s).target})
      else s
    case CondvarWait(cv, m) =>
      At(s, CondvarSleep(k, cv, m), InWait(cv, m)).(held := s.held - {(c, m)})
    case CondvarWaitResume => if PcOf(s).InWait? then At(s, k, Relock(PcOf(s).mutex)) else s
    case CondvarWaitRelock => if PcOf(s).Relock? then LockStep(s, PcOf(s).mutex, true) else s
    case CondvarSignal(cv) => s.(k := Wake(k, CondvarQueue(cv)))
    case CondvarBroadcast(cv) => s.(k := WakeAll(k, CondvarQueue(cv)))
    case SemaphoreAcquire(sem) =>
      At(s, TaskState.SemaphoreAcquire(k, sem),
         if sem in k.count && k.count[sem] > 0 then User else InAcquire(sem))
    case SemaphoreAcquireReturn => At(s, k, User)
    case SemaphoreRelease(sem) => s.(k := TaskState.SemaphoreRelease(k, sem))
    case ThreadBlock => At(s, Block(k), SelfBlocked)
    case ThreadBlockReturn => At(s, k, User)
    case ThreadUnblock(t) => s.(k := Unblock(k, t))
    case ProcessCreate(p) =>
      s.(k := k.(processes := k.processes + {p}), usedProcesses := s.usedProcesses + {p})
    case ThreadCreate(t, p) =>
      s.(k := Create(k, t, p), pc := s.pc[t := User], usedThreads := s.usedThreads + {t})
    case ThreadAdd(t) =>
      if t in k.process then
        s.(k := TaskState.ThreadAdd(k, t), populated := s.populated + {k.process[t]})
      else s
    case ThreadJoin(t) =>
      if t in k.state && k.state[t] == Terminated then DestroyStep(s, Destroy(k, {t}), {t}, User)
      else At(s, Sleep(k, TerminationQueue(t)), InJoin(t))
    case ThreadJoinReturn =>
      if PcOf(s).InJoin? then
        DestroyStep(s, Destroy(k, {PcOf(s).thread}), {PcOf(s).thread}, User)
      else s
    case ThreadDetach(t) => s.(k := Detach(k, t))
    case ThreadExit => At(s, KillCurrent(k), Dead)
    case ReaperSleep => At(s, Sleep(k, ReaperQueue), ReaperAsleep)
    case ReaperResume => At(s, k, ReaperDrain)
    case ReaperDrainAll => DestroyStep(s, Drain(k), (set t | t in k.zombies), ReaperTop)
  }

  /** After scheduler_start and reaper_init: the idle thread runs, the reaper is ready. */
  function Initial(count: map<SemaphorePtr, nat>, reaper: ThreadPtr, reaperProcess: ProcessPtr): System
    requires reaper != NULL && reaper != IDLE
  {
    System(
      Kernel(IDLE, [reaper], [], SCHEDULER_QUANTUM_TICKS, map[IDLE := Running, reaper := Ready],
             map[], map[], {reaper}, map[reaper := reaperProcess], {reaper}, {reaperProcess},
             map[], count, reaper),
      map[reaper := ReaperTop], {}, map[], {NULL, IDLE, reaper}, {reaperProcess}, {reaperProcess})
  }
}
