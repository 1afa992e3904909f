/** The pool as a transition system: any number of producers and workers and the
    manager, interleaved at their critical sections.  Condition variables follow
    POSIX: a signal wakes some sleeper if there is one, sleepers may wake
    spuriously, and a woken thread competes for the lock with everyone else. */
module PoolSystem {
  import opened PoolCore

  datatype WorkerPc =
    | AtLock                            // about to lock mutexPool at the top of its loop
    | Sleeping                          // in pthread_cond_wait on notEmpty
    | Woken                             // out of that wait, not yet holding the lock
    | Claimed(task: Task, ticket: nat)  // has taken a task, not yet counted busy
    | Running(task: Task, ticket: nat)  // counted busy, inside the task
    | Returned(ticket: nat)             // the task has returned, still counted busy
    | Leaving(retired: bool)            // in threadExit, slot not yet cleared
    | Gone(retired: bool)

  datatype ProducerPc =
    | Adding(task: Task)    // about to lock mutexPool in threadPoolAdd
    | Blocked(task: Task)   // in pthread_cond_wait on notFull
    | Notified(task: Task)  // out of that wait, not yet holding the lock
    | Accepted(task: Task)
    | Refused(task: Task)

  /** The manager; the numbers it carries are its snapshots. */
  datatype ManagerPc =
    | LoopTest
    | Napping
    | SawQueue(queued: nat, live: int)
    | SawBusy(queued: nat, live: int, busy: int)
    | Scanning(i: nat, created: nat, live: int, busy: int)  // holds mutexPool
    | ShrinkTest(live: int, busy: int)
    | Signalling(left: nat)
    | Stopped

  /** A state.  The last six components are history: what was accepted, what was
      dequeued (position = ticket) and by whom, which tickets are done, how often
      each was started, each worker's slot, and the number of shrink decisions. */
  datatype Pool = Pool(
    core: Core, workers: seq<WorkerPc>, producers: seq<ProducerPc>, manager: ManagerPc,
    accepted: seq<Task>, dequeued: seq<Task>, takers: seq<nat>, done: set<nat>,
    starts: multiset<nat>, home: seq<nat>, shrinks: nat)

  /** The state `threadPoolCreate` leaves: `cells` is whatever malloc returned. */
  function Start(p: Params, cells: seq<Task>): (s: Pool)
    requires ValidParams(p) && |cells| == p.capacity
    ensures CoreOk(p, s.core)
  {
    Wrap(0, p.capacity);
    Pool(Core(Ring(cells, 0, 0, 0), p.minNum, 0, 0, false, seq(p.maxNum, j => if j < p.minNum then j + 1 else 0)),
         seq(p.minNum, _ => AtLock), [], LoopTest,
         [], [], [], {}, multiset{}, seq(p.minNum, j => j), 0)
  }

  datatype Action =
    | Submit(task: Task)                 // a call of threadPoolAdd begins
    | Produce(i: nat, wake: nat)         // producer i gets the lock; its signal would wake worker `wake`
    | Work(w: nat, wake: nat)            // worker w gets the lock; its signal would wake producer `wake`
    | Wake(w: nat, wake: nat)            // the same, returning from its wait
    | StartTask(w: nat)
    | FinishTask(w: nat)
    | EndTask(w: nat)
    | ExitThread(w: nat)
    | SpuriousWorker(w: nat)
    | SpuriousProducer(i: nat)
    | ManagerTest
    | ManagerQueue
    | ManagerBusy
    | ManagerGrowTest
    | ManagerScan
    | ManagerShrinkTest
    | ManagerSignal(wake: nat)
    | Shutdown

  predicate LockFree(s: Pool) { !s.manager.Scanning? }

  /** `pthread_cond_signal(&notEmpty)` may choose `w`: a sleeper if there is one. */
  predicate WorkerTarget(ws: seq<WorkerPc>, w: nat) {
    (w < |ws| && ws[w].Sleeping?) || forall v :: 0 <= v < |ws| ==> !ws[v].Sleeping?
  }

  function SignalWorker(ws: seq<WorkerPc>, w: nat): seq<WorkerPc> {
    if w < |ws| && ws[w].Sleeping? then ws[w := Woken] else ws
  }

  /** `pthread_cond_signal(&notFull)` may choose `i`. */
  predicate ProducerTarget(ps: seq<ProducerPc>, i: nat) {
    (i < |ps| && ps[i].Blocked?) || forall j :: 0 <= j < |ps| ==> !ps[j].Blocked?
  }

  function SignalProducer(ps: seq<ProducerPc>, i: nat): seq<ProducerPc> {
    if i < |ps| && ps[i].Blocked? then ps[i := Notified(ps[i].task)] else ps
  }

  predicate Enabled(p: Params, s: Pool, a: Action) {
    match a
    case Submit(_) => true
    case Produce(i, wake) =>
      && i < |s.producers| && (s.producers[i].Adding? || s.producers[i].Notified?)
      && LockFree(s) && WorkerTarget(s.workers, wake)
    case Work(w, wake) => w < |s.workers| && s.workers[w].AtLock? && LockFree(s) && ProducerTarget(s.producers, wake)
    case Wake(w, wake) => w < |s.workers| && s.workers[w].Woken? && LockFree(s) && ProducerTarget(s.producers, wake)
    case StartTask(w) => w < |s.workers| && s.workers[w].Claimed?
    case FinishTask(w) => w < |s.workers| && s.workers[w].Running?
    case EndTask(w) => w < |s.workers| && s.workers[w].Returned?
    case ExitThread(w) => w < |s.workers| && s.workers[w].Leaving?
    case SpuriousWorker(w) => w < |s.workers| && s.workers[w].Sleeping?
    case SpuriousProducer(i) => i < |s.producers| && s.producers[i].Blocked?
    case ManagerTest => s.manager.LoopTest?
    case ManagerQueue => s.manager.Napping?
    case ManagerBusy => s.manager.SawQueue?
    case ManagerGrowTest => s.manager.SawBusy?
    case ManagerScan => s.manager.Scanning?
    case ManagerShrinkTest => s.manager.ShrinkTest?
    case ManagerSignal(wake) => s.manager.Signalling? && WorkerTarget(s.workers, wake)
    case Shutdown => !s.core.shutdown
  }

  function AfterAdd(s: Pool, i: nat, t: Task, wake: nat, r: (Core, AddOutcome)): Pool
    requires i < |s.producers|
  {
    match r.1
    case AddWaits => s.(core := r.0, producers := s.producers[i := Blocked(t)])
    case AddRefused => s.(core := r.0, producers := s.producers[i := Refused(t)])
    case AddQueued => s.(core := r.0, producers := s.producers[i := Accepted(t)],
                         workers := SignalWorker(s.workers, wake), accepted := s.accepted + [t])
  }

  function AfterWork(s: Pool, w: nat, wake: nat, r: (Core, WorkOutcome)): Pool
    requires w < |s.workers|
  {
    match r.1
    case WorkWaits => s.(core := r.0, workers := s.workers[w := Sleeping])
    case WorkQuits => s.(core := r.0, workers := s.workers[w := Leaving(false)])
    case WorkRetires => s.(core := r.0, workers := s.workers[w := Leaving(true)])
    case WorkTakes(t) => s.(core := r.0, workers := s.workers[w := Claimed(t, |s.dequeued|)],
                            producers := SignalProducer(s.producers, wake),
                            dequeued := s.dequeued + [t], takers := s.takers + [w])
  }

  /** One iteration of the manager's growing loop, or its end. */
  function AfterScan(p: Params, s: Pool): (t: Pool)
    requires CoreOk(p, s.core) && s.manager.Scanning?
    ensures CoreOk(p, t.core)
  {
    var m := s.manager;
    if !GrowContinues(p, s.core.slots, s.core.live, m.i, m.created) then s.(manager := ShrinkTest(m.live, m.busy))
    else if s.core.slots[m.i] == 0 then
      s.(core := s.core.(slots := s.core.slots[m.i := |s.workers| + 1], live := s.core.live + 1),
         workers := s.workers + [AtLock], home := s.home + [m.i],
         manager := m.(i := m.i + 1, created := m.created + 1))
    else s.(manager := m.(i := m.i + 1))
  }

  function Apply(p: Params, s: Pool, a: Action): (t: Pool)
    requires CoreOk(p, s.core) && Enabled(p, s, a)
    ensures CoreOk(p, t.core)
  {
    match a
    case Submit(t) => s.(producers := s.producers + [Adding(t)])
    case Produce(i, wake) => AfterAdd(s, i, s.producers[i].task, wake, AddPass(s.core, s.producers[i].task))
    case Work(w, wake) => AfterWork(s, w, wake, WorkPass(s.core))
    case Wake(w, wake) => AfterWork(s, w, wake, WakePass(p, s.core))
    case StartTask(w) =>
      var k := s.workers[w].ticket;
      s.(core := s.core.(busy := s.core.busy + 1), workers := s.workers[w := Running(s.workers[w].task, k)],
         starts := s.starts[k := s.starts[k] + 1])
    case FinishTask(w) =>
      s.(workers := s.workers[w := Returned(s.workers[w].ticket)], done := s.done + {s.workers[w].ticket})
    case EndTask(w) => s.(core := s.core.(busy := s.core.busy - 1), workers := s.workers[w := AtLock])
    case ExitThread(w) =>
      s.(core := s.core.(slots := ClearSlot(s.core.slots, w + 1, 0)),
         workers := s.workers[w := Gone(s.workers[w].retired)])
    case SpuriousWorker(w) => s.(workers := s.workers[w := Woken])
    case SpuriousProducer(i) => s.(producers := s.producers[i := Notified(s.producers[i].task)])
    case ManagerTest => s.(manager := if s.core.shutdown then Stopped else Napping)
    case ManagerQueue => s.(manager := SawQueue(s.core.ring.size, s.core.live))
    case ManagerBusy => s.(manager := SawBusy(s.manager.queued, s.manager.live, s.core.busy))
    case ManagerGrowTest =>
      var m := s.manager;
      var grows := m.queued > m.live && m.live < p.maxNum;
      s.(manager := if grows then Scanning(0, 0, m.live, m.busy) else ShrinkTest(m.live, m.busy))
    case ManagerScan => AfterScan(p, s)
    case ManagerShrinkTest =>
      if s.manager.busy * 2 < s.manager.live && s.manager.live > p.minNum then
        s.(core := s.core.(exitNum := p.numberE), manager := Signalling(p.numberE), shrinks := s.shrinks + 1)
      else s.(manager := LoopTest)
    case ManagerSignal(wake) =>
      if s.manager.left > 0 then s.(workers := SignalWorker(s.workers, wake), manager := Signalling(s.manager.left - 1))
      else s.(manager := LoopTest)
    case Shutdown => s.(core := s.core.(shutdown := true))
  }

  /** `acts`, taken in order from `s`, are all enabled and end in `t`. */
  ghost predicate Runs(p: Params, s: Pool, acts: seq<Action>, t: Pool)
    requires CoreOk(p, s.core)
    decreases acts
  {
    if acts == [] then s == t
    else Enabled(p, s, acts[0]) && Runs(p, Apply(p, s, acts[0]), acts[1..], t)
  }

  /** Some run of the pool from its creation ends in `s`. */
  ghost predicate Reachable(p: Params, s: Pool)
    requires ValidParams(p)
  {
    exists cells: seq<Task>, acts: seq<Action> ::
      |cells| == p.capacity && Runs(p, Start(p, cells), acts, s)
  }
}
