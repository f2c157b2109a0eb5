/** The inductive invariant of the interleaved system. */
module TaskInvariant {
  import opened Sequences
  import opened TaskState
  import opened TaskSystem

  // ----- the kernel's memory -----

  predicate Runnable(state: States, linked: set<ThreadPtr>, t: ThreadPtr) {
    t in state && t != IDLE && t in linked && (state[t] == Ready || state[t] == Running)
  }

  /** The ready list holds exactly the added threads that are READY or RUNNING, once each. */
  ghost predicate ReadyInv(ready: seq<ThreadPtr>, state: States, linked: set<ThreadPtr>) {
    NoDup(ready) && forall t :: t in ready <==> Runnable(state, linked, t)
  }

  ghost predicate RunningInv(current: ThreadPtr, state: States) {
    && (forall t | t in state && t != IDLE && state[t] == Running :: t == current)
    && NULL !in state && IDLE in state && state[IDLE] == Running
  }

  /** Each thread is in at most one wait queue, the one its wait_queue member names. */
  ghost predicate QueueInv(queue: Queues, waitQueue: Waits) {
    && (forall q :: NoDup(Waiters(queue, q)))
    && (forall q, t {:trigger t in Waiters(queue, q)} | t in Waiters(queue, q) ::
          t in waitQueue && waitQueue[t] == q)
    && (forall t | t in waitQueue :: t in Waiters(queue, waitQueue[t]))
  }

  ghost predicate WaitingInv(waitQueue: Waits, state: States) {
    forall t | t in waitQueue :: t in state && t != IDLE && state[t] == Blocked
  }

  ghost predicate ObjectInv(queue: Queues, owner: Owners, count: map<SemaphorePtr, nat>) {
    && (forall m {:trigger Waiters(queue, MutexQueue(m))} :: Waiters(queue, MutexQueue(m)) != [] ==> m in owner)
    && (forall x {:trigger Waiters(queue, SemaphoreQueue(x))} ::
          Waiters(queue, SemaphoreQueue(x)) != [] ==> x in count && count[x] == 0)
  }

  predicate Zombie(state: States, detached: set<ThreadPtr>, t: ThreadPtr) {
    t in state && state[t] == Terminated && t in detached
  }

  /** The zombie list holds exactly the terminated detached threads not yet destroyed. */
  ghost predicate ZombieInv(zombies: seq<ThreadPtr>, state: States, detached: set<ThreadPtr>) {
    NoDup(zombies) && forall t :: t in zombies <==> Zombie(state, detached, t)
  }

  /** A thread that was never added to its process is READY; the processes of the others live. */
  ghost predicate ThreadsInv(
    state: States, process: map<ThreadPtr, ProcessPtr>, linked: set<ThreadPtr>, processes: set<ProcessPtr>)
  {
    && process.Keys == state.Keys - {IDLE} && linked <= process.Keys
    && (forall t | t in linked :: process[t] in processes)
    && (forall t | t in state && t != IDLE && t !in linked :: state[t] == Ready)
  }

  ghost predicate DetachedInv(detached: set<ThreadPtr>, linked: set<ThreadPtr>, state: States, reaper: ThreadPtr) {
    IDLE !in detached && detached <= state.Keys && reaper in linked && reaper in detached
  }

  /** A terminated thread has woken its joiner, and a freed one leaves no waiter behind. */
  ghost predicate JoinQueueInv(queue: Queues, state: States) {
    forall t {:trigger Waiters(queue, TerminationQueue(t))} ::
      (t in state && state[t] != Terminated) || Waiters(queue, TerminationQueue(t)) == []
  }

  ghost predicate CoreInv(k: Kernel) {
    var scheduling :=
      && ReadyInv(k.ready, k.state, k.linked) && RunningInv(k.current, k.state)
      && 1 <= k.quantum <= SCHEDULER_QUANTUM_TICKS;
    var waiting :=
      QueueInv(k.queue, k.waitQueue) && WaitingInv(k.waitQueue, k.state) && ObjectInv(k.queue, k.owner, k.count);
    var lifetimes :=
      && ThreadsInv(k.state, k.process, k.linked, k.processes)
      && DetachedInv(k.detached, k.linked, k.state, k.reaper);
    scheduling && waiting && lifetimes
  }

  ghost predicate KernelInv(k: Kernel) {
    var core := CoreInv(k);
    var zombies := ZombieInv(k.zombies, k.state, k.detached);
    var joiners := JoinQueueInv(k.queue, k.state);
    core && zombies && joiners
  }

  predicate CurrentRuns(k: Kernel) {
    k.current == IDLE || (k.current in k.state && k.current in k.ready && k.state[k.current] == Running)
  }

  // ----- program counters -----

  function QueueOf(pc: Pc): Option<QueuePtr> {
    match pc
    case InLock(m, _) => Some(MutexQueue(m))
    case InWait(c, _) => Some(CondvarQueue(c))
    case InAcquire(x) => Some(SemaphoreQueue(x))
    case InJoin(t) => Some(TerminationQueue(t))
    case ReaperAsleep => Some(ReaperQueue)
    case _ => None
  }

  predicate IsReaperPc(pc: Pc) {
    pc.ReaperTop? || pc.ReaperAsleep? || pc.ReaperDrain?
  }

  function WaitOf(waitQueue: Waits, t: ThreadPtr): Option<QueuePtr> {
    if t in waitQueue then Some(waitQueue[t]) else None
  }

  /** A program counter suits a thread's state, wait queue and place in a handoff. */
  predicate PcSuits(
    pc: Pc, state: ThreadState, wait: Option<QueuePtr>, inHandoff: bool, linked: bool, isReaper: bool)
  {
    && (wait.Some? ==> QueueOf(pc) == wait)
    && (state == Blocked ==> wait.Some? || pc == SelfBlocked || inHandoff)
    && (pc == Dead <==> state == Terminated)
    && (IsReaperPc(pc) <==> isReaper)
    && (!linked ==> pc == User)
  }

  ghost predicate PcInv(
    pc: Pcs, state: States, waitQueue: Waits, handoff: Handoffs, linked: set<ThreadPtr>, reaper: ThreadPtr)
  {
    && pc.Keys == state.Keys - {IDLE}
    && (forall t | t in pc ::
          PcSuits(pc[t], state[t], WaitOf(waitQueue, t), t in handoff, t in linked, t == reaper))
  }

  ghost predicate HandoffInv(pc: Pcs, state: States, waitQueue: Waits, handoff: Handoffs) {
    && (forall u | u in pc && pc[u].Handoff? :: pc[u].target in handoff && handoff[pc[u].target] == u)
    && (forall x {:trigger x in handoff} | x in handoff ::
          && x in pc && pc[x].InLock?
          && x in state && state[x] == Blocked && x !in waitQueue
          && handoff[x] in pc && pc[handoff[x]] == Handoff(pc[x].mutex, x))
  }

  /**
   * A holder is the owner; a thread woken in mutex_lock already is the owner; and the owner, while
   * it lives, is one or the other.
   */
  ghost predicate MutexInv(held: Held, owner: Owners, pc: Pcs, waitQueue: Waits) {
    && (forall t, m | (t, m) in held :: m in owner && owner[m] == t)
    && (forall t | t in pc && pc[t].InLock? && t !in waitQueue ::
          pc[t].mutex in owner && owner[pc[t].mutex] == t && (t, pc[t].mutex) !in held)
    && (forall m | m in owner && owner[m] in pc ::
          (owner[m], m) in held ||
          (owner[m] !in waitQueue && pc[owner[m]].InLock? && pc[owner[m]].mutex == m))
  }

  ghost predicate JoinInv(pc: Pcs, state: States, waitQueue: Waits, detached: set<ThreadPtr>) {
    && (forall u | u in pc && pc[u].InJoin? ::
          && pc[u].thread in state && pc[u].thread != IDLE && pc[u].thread !in detached
          && (u in waitQueue || state[pc[u].thread] == Terminated))
    && (forall u, v | u in pc && v in pc && pc[u].InJoin? && pc[u] == pc[v] :: u == v)
  }

  /** Holders and owners are threads that existed, and the idle thread is none of them. */
  ghost predicate OwnersKnown(held: Held, owner: Owners, used: set<ThreadPtr>) {
    && (forall t, m | (t, m) in held :: t in used)
    && (forall m | m in owner :: owner[m] in used && owner[m] != IDLE && owner[m] != NULL)
  }

  /** A process to which a thread was ever added lives while one of its added threads does. */
  ghost predicate ProcessInv(
    linked: set<ThreadPtr>, process: map<ThreadPtr, ProcessPtr>, processes: set<ProcessPtr>,
    populated: set<ProcessPtr>, used: set<ProcessPtr>)
  {
    && processes <= used && populated <= used
    && (forall t | t in linked && t in process :: process[t] in populated)
    && (forall p | p in populated && p in processes :: Populated(linked, process, p))
  }

  ghost predicate Inv(s: System) {
    var memory := KernelInv(s.k) && CurrentRuns(s.k);
    var counters := PcInv(s.pc, s.k.state, s.k.waitQueue, s.handoff, s.k.linked, s.k.reaper);
    var handoffs := HandoffInv(s.pc, s.k.state, s.k.waitQueue, s.handoff);
    var mutexes := MutexInv(s.held, s.k.owner, s.pc, s.k.waitQueue) && OwnersKnown(s.held, s.k.owner, s.usedThreads);
    var joins := JoinInv(s.pc, s.k.state, s.k.waitQueue, s.k.detached);
    var processes := ProcessInv(s.k.linked, s.k.process, s.k.processes, s.populated, s.usedProcesses);
    var threads := s.k.state.Keys <= s.usedThreads && NULL in s.usedThreads;
    memory && counters && handoffs && mutexes && joins && processes && threads
  }

  // ----- taking the invariant apart -----

  lemma CoreParts(k: Kernel)
    requires CoreInv(k)
    ensures ReadyInv(k.ready, k.state, k.linked) && RunningInv(k.current, k.state)
    ensures 1 <= k.quantum <= SCHEDULER_QUANTUM_TICKS
    ensures QueueInv(k.queue, k.waitQueue) && WaitingInv(k.waitQueue, k.state) && ObjectInv(k.queue, k.owner, k.count)
    ensures ThreadsInv(k.state, k.process, k.linked, k.processes)
            && DetachedInv(k.detached, k.linked, k.state, k.reaper)
  {
    hide ReadyInv, RunningInv, QueueInv, WaitingInv, ObjectInv, ThreadsInv, DetachedInv;
  }

  lemma KernelParts(k: Kernel)
    requires KernelInv(k)
    ensures CoreInv(k) && ZombieInv(k.zombies, k.state, k.detached) && JoinQueueInv(k.queue, k.state)
  {
    hide CoreInv, ZombieInv, JoinQueueInv;
  }

  lemma InvParts(s: System)
    requires Inv(s)
    ensures KernelInv(s.k) && CoreInv(s.k) && CurrentRuns(s.k)
    ensures PcInv(s.pc, s.k.state, s.k.waitQueue, s.handoff, s.k.linked, s.k.reaper)
    ensures HandoffInv(s.pc, s.k.state, s.k.waitQueue, s.handoff)
    ensures MutexInv(s.held, s.k.owner, s.pc, s.k.waitQueue) && OwnersKnown(s.held, s.k.owner, s.usedThreads)
    ensures JoinInv(s.pc, s.k.state, s.k.waitQueue, s.k.detached)
    ensures ProcessInv(s.k.linked, s.k.process, s.k.processes, s.populated, s.usedProcesses)
    ensures s.k.state.Keys <= s.usedThreads && NULL in s.usedThreads
  {
    hide KernelInv, CurrentRuns, PcInv, HandoffInv, MutexInv, OwnersKnown, JoinInv, ProcessInv;
    KernelParts(s.k);
  }
}
