/**
 * The memory that kernel/task/ shares, and what every interrupts-off section does to it.
 *
 * A pointer to a struct is an identifier, and each member of `struct thread` is a map from
 * that identifier to the member's value: two pointers alias exactly when they are equal.
 * A list whose order is observed is a sequence; the lists of a process are sets.
 */
module TaskState {
  import opened Sequences

  type ThreadPtr = nat
  type ProcessPtr = nat
  type MutexPtr = nat
  type CondvarPtr = nat
  type SemaphorePtr = nat

  const NULL: ThreadPtr := 0
  const IDLE: ThreadPtr := 1    // &idle_thread
  const SCHEDULER_QUANTUM_TICKS: nat := 5
  const UINT32_MODULUS: nat := 0x1_0000_0000

  datatype ThreadState = Ready | Running | Blocked | Terminated

  /** Address of a `struct wait_queue`: each is a member of exactly one object. */
  datatype QueuePtr =
    | MutexQueue(mutex: MutexPtr)
    | CondvarQueue(condvar: CondvarPtr)
    | SemaphoreQueue(semaphore: SemaphorePtr)
    | TerminationQueue(thread: ThreadPtr)
    | ReaperQueue

  type Queues = map<QueuePtr, seq<ThreadPtr>>
  type States = map<ThreadPtr, ThreadState>
  type Waits = map<ThreadPtr, QueuePtr>
  type Owners = map<MutexPtr, ThreadPtr>

  datatype Kernel = Kernel(
    current: ThreadPtr,
    ready: seq<ThreadPtr>,
    zombies: seq<ThreadPtr>,
    quantum: nat,
    state: States,                              // its keys are the threads not yet destroyed
    waitQueue: Waits,                           // absent: thread->wait_queue is NULL
    queue: Queues,                              // absent: still as wait_queue_init left it
    detached: set<ThreadPtr>,
    process: map<ThreadPtr, ProcessPtr>,
    linked: set<ThreadPtr>,                     // threads whose group_node is in process->threads
    processes: set<ProcessPtr>,
    owner: Owners,                              // absent: mutex->owner is NULL
    count: map<SemaphorePtr, nat>,
    reaper: ThreadPtr)

  function Waiters(queue: Queues, q: QueuePtr): seq<ThreadPtr> {
    if q in queue then queue[q] else []
  }

  function Queue(k: Kernel, q: QueuePtr): seq<ThreadPtr> {
    Waiters(k.queue, q)
  }

  // ----- kernel/task/scheduler.c -----

  function SchedulerAdd(k: Kernel, t: ThreadPtr): Kernel {
    k.(ready := k.ready + [t])
  }

  function SchedulerRemove(k: Kernel, t: ThreadPtr): Kernel {
    k.(ready := Without(k.ready, t))
  }

  /**
   * The thread scheduler_next picks: the ready list read as a circle from `current`, from its
   * front when `current` is not linked, and the idle thread when the list is empty.
   */
  function Successor(ready: seq<ThreadPtr>, current: ThreadPtr): ThreadPtr {
    if ready == [] then IDLE
    else if current !in ready then ready[0]
    else
      var i := IndexOf(ready, current) + 1;
      if i == |ready| then ready[0] else ready[i]
  }

  /** `current` stops running, unless it is the idle thread or no longer runs anyway; `next` runs. */
  function Rescheduled(state: States, current: ThreadPtr, next: ThreadPtr): States {
    if next != IDLE && current != IDLE && current in state && state[current] == Running
    then state[current := Ready][next := Running]
    else state[next := Running]
  }

  function SchedulerNext(k: Kernel): Kernel {
    var next := Successor(k.ready, k.current);
    k.(current := next, state := Rescheduled(k.state, k.current, next))
  }

  function Switch(k: Kernel): Kernel {
    SchedulerNext(k).(quantum := SCHEDULER_QUANTUM_TICKS)
  }

  /** The pre-decrement wraps around as a uint32_t. */
  function Decremented(quantum: nat): nat {
    if quantum == 0 then UINT32_MODULUS - 1 else quantum - 1
  }

  predicate TickSwitches(k: Kernel) {
    k.current != NULL && Decremented(k.quantum) == 0
  }

  function Tick(k: Kernel): Kernel {
    if k.current == NULL then k
    else if !TickSwitches(k) then k.(quantum := Decremented(k.quantum))
    else Switch(k)
  }

  function Yield(k: Kernel): Kernel {
    if k.current == NULL then k else Switch(k)
  }

  // ----- kernel/task/wait.c -----

  function Enqueue(k: Kernel, q: QueuePtr, t: ThreadPtr): Kernel {
    k.(waitQueue := k.waitQueue[t := q], queue := k.queue[q := Queue(k, q) + [t]])
  }

  function Dequeue(k: Kernel, q: QueuePtr): Kernel
    requires Queue(k, q) != []
  {
    k.(waitQueue := k.waitQueue - {Queue(k, q)[0]}, queue := k.queue[q := Queue(k, q)[1..]])
  }

  function Unblock(k: Kernel, t: ThreadPtr): Kernel {
    k.(state := k.state[t := Ready], ready := k.ready + [t])
  }

  function Wake(k: Kernel, q: QueuePtr): Kernel {
    if Queue(k, q) == [] then k else Unblock(Dequeue(k, q), Queue(k, q)[0])
  }

  /** All waiters at once; the loop of wait_queue_wake_all is proved to compute this. */
  function WakeAll(k: Kernel, q: QueuePtr): Kernel {
    if Queue(k, q) == [] then k
    else
      k.(waitQueue := k.waitQueue - (set t | t in Queue(k, q)),
         queue := k.queue[q := []],
         state := map t | t in k.state :: if t in Queue(k, q) then Ready else k.state[t],
         ready := k.ready + Queue(k, q))
  }

  /** The current thread leaves the ready list in state `st`. */
  function Suspend(k: Kernel, st: ThreadState): Kernel {
    k.(state := k.state[k.current := st], ready := Without(k.ready, k.current))
  }

  function Sleep(k: Kernel, q: QueuePtr): Kernel {
    Switch(Suspend(Enqueue(k, q, k.current), Blocked))
  }

  // ----- kernel/task/thread.c -----

  function Block(k: Kernel): Kernel {
    Switch(Suspend(k, Blocked))
  }

  function Create(k: Kernel, t: ThreadPtr, p: ProcessPtr): Kernel {
    k.(state := k.state[t := Ready], process := k.process[t := p])
  }

  function ThreadAdd(k: Kernel, t: ThreadPtr): Kernel {
    k.(linked := k.linked + {t}, ready := k.ready + [t])
  }

  function PushZombie(k: Kernel, t: ThreadPtr): Kernel {
    Wake(k.(zombies := k.zombies + [t]), ReaperQueue)
  }

  function Detach(k: Kernel, t: ThreadPtr): Kernel {
    var k' := k.(detached := k.detached + {t});
    if t in k.state && k.state[t] == Terminated then PushZombie(k', t) else k'
  }

  /** scheduler_terminate applied to the current thread. */
  function Terminate(k: Kernel): Kernel {
    var k' := WakeAll(Suspend(k, Terminated), TerminationQueue(k.current));
    if k.current in k.detached then PushZombie(k', k.current) else k'
  }

  function KillCurrent(k: Kernel): Kernel {
    Yield(Terminate(k))
  }

  ghost predicate Populated(linked: set<ThreadPtr>, process: map<ThreadPtr, ProcessPtr>, p: ProcessPtr) {
    exists t :: t in linked && t in process && process[t] == p
  }

  /** The processes that are left once the threads `ts` are freed: not those this empties. */
  ghost function Surviving(k: Kernel, ts: set<ThreadPtr>): set<ProcessPtr> {
    set p | p in k.processes &&
            ((forall t | t in ts && t in k.process :: k.process[t] != p) ||
             Populated(k.linked - ts, k.process - ts, p))
  }

  /** The threads in `ts` are freed, and with them every process they leave empty. */
  ghost function Destroy(k: Kernel, ts: set<ThreadPtr>): Kernel {
    k.(state := k.state - ts, process := k.process - ts, linked := k.linked - ts,
       detached := k.detached - ts, processes := Surviving(k, ts))
  }

  // ----- kernel/task/reaper.c -----

  ghost function Drain(k: Kernel): Kernel {
    Destroy(k, set t | t in k.zombies).(zombies := [])
  }

  // ----- kernel/task/mutex.c, condvar.c, semaphore.c -----

  /** mutex_lock up to its return or, when the mutex is owned, up to the switch. */
  function MutexLock(k: Kernel, m: MutexPtr): Kernel {
    if m !in k.owner then k.(owner := k.owner[m := k.current]) else Sleep(k, MutexQueue(m))
  }

  /** The first section of mutex_unlock: ownership moves, the new owner is still blocked. */
  function MutexRelease(k: Kernel, m: MutexPtr): Kernel {
    var q := Queue(k, MutexQueue(m));
    if q == [] then k.(owner := k.owner - {m})
    else Dequeue(k, MutexQueue(m)).(owner := k.owner[m := q[0]])
  }

  /** Both sections of mutex_unlock together, as when interrupts are already off. */
  function MutexUnlock(k: Kernel, m: MutexPtr): Kernel {
    var q := Queue(k, MutexQueue(m));
    if q == [] then MutexRelease(k, m) else Unblock(MutexRelease(k, m), q[0])
  }

  function CondvarSleep(k: Kernel, c: CondvarPtr, m: MutexPtr): Kernel {
    Sleep(MutexUnlock(k, m), CondvarQueue(c))
  }

  function SemaphoreAcquire(k: Kernel, s: SemaphorePtr): Kernel {
    if s in k.count && k.count[s] > 0 then k.(count := k.count[s := k.count[s] - 1])
    else Sleep(k, SemaphoreQueue(s))
  }

  function SemaphoreRelease(k: Kernel, s: SemaphorePtr): Kernel {
    if Queue(k, SemaphoreQueue(s)) != [] then Wake(k, SemaphoreQueue(s))
    else if s in k.count then k.(count := k.count[s := (k.count[s] + 1) % UINT32_MODULUS])
    else k
  }
}
