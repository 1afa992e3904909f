/** What becomes of the calls of `threadPoolAdd`: every submitted task is kept track of,
    and a pool of fixed size serves them all. */
module PoolService {
  import opened Counting
  import opened PoolCore
  import opened PoolSystem
  import opened PoolCounters
  import opened PoolWakeups
  import opened PoolTheorems

  // ------------------------------------------------------------ submissions

  /** The tasks of the producers, in the order of their submission. */
  function TasksOf(ps: seq<ProducerPc>): (r: seq<Task>)
    ensures |r| == |ps|
  {
    if ps == [] then [] else TasksOf(ps[..|ps| - 1]) + [ps[|ps| - 1].task]
  }

  /** The tasks submitted in a run. */
  function Submitted(acts: seq<Action>): seq<Task> {
    if acts == [] then []
    else (if acts[0].Submit? then [acts[0].task] else []) + Submitted(acts[1..])
  }

  function IfAccepted(pc: ProducerPc): multiset<Task> {
    if pc.Accepted? then multiset{pc.task} else multiset{}
  }

  /** The tasks of the producers that have been accepted. */
  function AcceptedOf(ps: seq<ProducerPc>): multiset<Task> {
    if ps == [] then multiset{} else AcceptedOf(ps[..|ps| - 1]) + IfAccepted(ps[|ps| - 1])
  }

  lemma {:induction false} TasksUpdate(ps: seq<ProducerPc>, i: nat, pc: ProducerPc)
    requires i < |ps| && pc.task == ps[i].task
    ensures TasksOf(ps[i := pc]) == TasksOf(ps)
  {
    var n := |ps| - 1;
    if i < n {
      assert ps[i := pc][..n] == ps[..n][i := pc];
      TasksUpdate(ps[..n], i, pc);
    } else {
      assert ps[i := pc][..n] == ps[..n];
    }
  }

  lemma {:induction false} AcceptedUpdate(ps: seq<ProducerPc>, i: nat, pc: ProducerPc)
    requires i < |ps|
    ensures AcceptedOf(ps[i := pc]) + IfAccepted(ps[i]) == AcceptedOf(ps) + IfAccepted(pc)
  {
    hide IfAccepted;
    var n := |ps| - 1;
    if i < n {
      assert ps[i := pc][..n] == ps[..n][i := pc];
      AcceptedUpdate(ps[..n], i, pc);
      var before, after, last := AcceptedOf(ps[..n]), AcceptedOf(ps[..n][i := pc]), IfAccepted(ps[n]);
      assert (after + last) + IfAccepted(ps[i]) == (after + IfAccepted(ps[i])) + last;
      assert (before + last) + IfAccepted(pc) == (before + IfAccepted(pc)) + last;
    } else {
      assert ps[i := pc][..n] == ps[..n];
      var before := AcceptedOf(ps[..n]);
      assert (before + IfAccepted(pc)) + IfAccepted(ps[n]) == (before + IfAccepted(ps[n])) + IfAccepted(pc);
    }
  }

  lemma {:induction false} AllAccepted(ps: seq<ProducerPc>)
    requires forall i :: 0 <= i < |ps| ==> ps[i].Accepted?
    ensures AcceptedOf(ps) == multiset(TasksOf(ps))
  {
    if ps != [] {
      AllAccepted(ps[..|ps| - 1]);
    }
  }

  /** The accepted tasks are those of the accepted producers, and only a shutdown refuses. */
  ghost predicate ProducersOk(s: Pool) {
    && AcceptedOf(s.producers) == multiset(s.accepted)
    && (!s.core.shutdown ==> forall i :: 0 <= i < |s.producers| ==> !s.producers[i].Refused?)
  }

  lemma NothingAdded(m: multiset<Task>)
    ensures m + multiset{} == m
  {
  }

  /** A step that moves at most one producer, and not to its end. */
  lemma ProducersNeutral(s: Pool, t: Pool, i: nat)
    requires ProducersOk(s) && t.accepted == s.accepted && (t.core.shutdown || !s.core.shutdown)
    requires t.producers == s.producers
      || (i < |s.producers| == |t.producers| && t.producers == s.producers[i := t.producers[i]]
          && !s.producers[i].Accepted? && !t.producers[i].Accepted? && !t.producers[i].Refused?
          && t.producers[i].task == s.producers[i].task)
    ensures ProducersOk(t) && TasksOf(t.producers) == TasksOf(s.producers)
  {
    if t.producers != s.producers {
      AcceptedUpdate(s.producers, i, t.producers[i]);
      NothingAdded(AcceptedOf(s.producers));
      NothingAdded(AcceptedOf(t.producers));
      TasksUpdate(s.producers, i, t.producers[i]);
    }
  }

  lemma ProducersSubmit(s: Pool, task: Task)
    requires ProducersOk(s)
    ensures var t := s.(producers := s.producers + [Adding(task)]);
      ProducersOk(t) && TasksOf(t.producers) == TasksOf(s.producers) + [task]
  {
    var ps := s.producers + [Adding(task)];
    assert ps[..|ps| - 1] == s.producers;
  }

  lemma ProducersAdd(s: Pool, i: nat, wake: nat)
    requires ProducersOk(s) && RingOk(s.core.ring) && i < |s.producers|
    requires s.producers[i].Adding? || s.producers[i].Notified?
    ensures var task := s.producers[i].task;
      var t := AfterAdd(s, i, task, wake, AddPass(s.core, task));
      ProducersOk(t) && TasksOf(t.producers) == TasksOf(s.producers)
  {
    hide AcceptedOf, TasksOf;
    var task := s.producers[i].task;
    var t := AfterAdd(s, i, task, wake, AddPass(s.core, task));
    AcceptedUpdate(s.producers, i, t.producers[i]);
    NothingAdded(AcceptedOf(s.producers));
    NothingAdded(AcceptedOf(t.producers));
    TasksUpdate(s.producers, i, t.producers[i]);
  }

  lemma ProducersWork(p: Params, s: Pool, w: nat, wake: nat, r: (Core, WorkOutcome))
    requires ProducersOk(s) && RingOk(s.core.ring) && w < |s.workers|
    requires r == WorkPass(s.core) || r == WakePass(p, s.core)
    ensures var t := AfterWork(s, w, wake, r);
      ProducersOk(t) && TasksOf(t.producers) == TasksOf(s.producers)
  {
    hide ProducersOk, TasksOf;
    ProducersNeutral(s, AfterWork(s, w, wake, r), wake);
  }

  lemma ProducersStep(p: Params, s: Pool, a: Action)
    requires CoreOk(p, s.core) && Enabled(p, s, a) && ProducersOk(s)
    ensures ProducersOk(Apply(p, s, a))
    ensures TasksOf(Apply(p, s, a).producers) == TasksOf(s.producers) + Submitted([a])
  {
    hide ProducersOk, TasksOf, AddPass, WorkPass, WakePass, AfterAdd, AfterWork, AfterScan;
    assert [a][1..] == [];
    match a
    case Submit(task) => ProducersSubmit(s, task);
    case Produce(i, wake) => ProducersAdd(s, i, wake);
    case Work(w, wake) => ProducersWork(p, s, w, wake, WorkPass(s.core));
    case Wake(w, wake) => ProducersWork(p, s, w, wake, WakePass(p, s.core));
    case ManagerScan => ProducersScan(p, s);
    case SpuriousProducer(i) => ProducersNeutral(s, Apply(p, s, a), i);
    case _ => ProducersNeutral(s, Apply(p, s, a), 0);
  }

  lemma ProducersScan(p: Params, s: Pool)
    requires CoreOk(p, s.core) && s.manager.Scanning? && ProducersOk(s)
    ensures ProducersOk(AfterScan(p, s)) && AfterScan(p, s).producers == s.producers
  {
    hide ProducersOk;
    ProducersNeutral(s, AfterScan(p, s), 0);
  }

  lemma {:induction false} ProducersRuns(p: Params, s: Pool, acts: seq<Action>, t: Pool)
    requires CoreOk(p, s.core) && ProducersOk(s) && Runs(p, s, acts, t)
    ensures ProducersOk(t) && TasksOf(t.producers) == TasksOf(s.producers) + Submitted(acts)
    decreases acts
  {
    hide ProducersOk, TasksOf, Apply, Enabled;
    if acts != [] {
      var u := Apply(p, s, acts[0]);
      ProducersStep(p, s, acts[0]);
      ProducersRuns(p, u, acts[1..], t);
      assert [acts[0]][1..] == [];
      assert TasksOf(s.producers) + Submitted([acts[0]]) + Submitted(acts[1..]) == TasksOf(s.producers) + Submitted(acts);
    }
  }

  /** No call is forgotten: after any run from the pool's creation the producers' tasks are
      the submitted ones in order, the accepted tasks are those of the producers that were
      told so, and nobody is refused before shutdown. */
  lemma SubmissionsKept(p: Params, cells: seq<Task>, acts: seq<Action>, s: Pool)
    requires ValidParams(p) && |cells| == p.capacity && Runs(p, Start(p, cells), acts, s)
    ensures TasksOf(s.producers) == Submitted(acts)
    ensures AcceptedOf(s.producers) == multiset(s.accepted)
    ensures !s.core.shutdown ==> forall i :: 0 <= i < |s.producers| ==> !s.producers[i].Refused?
  {
    ProducersRuns(p, Start(p, cells), acts, s);
  }

  // -------------------------------------------------------------- termination

  /** A step of some worker, or of a producer already under way. */
  predicate ServiceAction(a: Action) {
    WorkerAction(a) || a.Produce?
  }

  function CallLeft(pc: ProducerPc): nat {
    match pc
    case Adding(_) => 13
    case Notified(_) => 13
    case Blocked(_) => 12
    case _ => 0
  }

  function CallsLeft(ps: seq<ProducerPc>): nat {
    if ps == [] then 0 else CallLeft(ps[0]) + CallsLeft(ps[1..])
  }

  lemma {:induction false} CallsUpdate(ps: seq<ProducerPc>, i: nat, pc: ProducerPc)
    requires i < |ps|
    ensures CallsLeft(ps[i := pc]) + CallLeft(ps[i]) == CallsLeft(ps) + CallLeft(pc)
  {
    hide CallLeft;
    if i == 0 {
      assert ps[i := pc][1..] == ps[1..];
    } else {
      assert ps[i := pc][1..] == ps[1..][i - 1 := pc];
      CallsUpdate(ps[1..], i - 1, pc);
    }
  }

  /** What workers and producers have left to do without further submissions. */
  function ServiceLeft(s: Pool): nat {
    2 * WorkLeft(s) + CallsLeft(s.producers)
  }

  /** An addition makes work for a worker, but less than the call itself was worth. */
  lemma ProduceDecreases(p: Params, s: Pool, i: nat, wake: nat)
    requires CoreOk(p, s.core) && Enabled(p, s, Produce(i, wake))
    ensures ServiceLeft(Apply(p, s, Produce(i, wake))) < ServiceLeft(s)
  {
    hide PhaseSum, CallsLeft, WorkerTarget, Put;
    var task := s.producers[i].task;
    var t := AfterAdd(s, i, task, wake, AddPass(s.core, task));
    CallsUpdate(s.producers, i, t.producers[i]);
    if t.workers != s.workers {
      PhaseSumUpdate(s.workers, wake, Woken);
    }
    PutGrows(s.core, task);
  }

  lemma PutGrows(c: Core, task: Task)
    requires RingOk(c.ring)
    ensures AddPass(c, task).0.ring.size == c.ring.size + (if AddPass(c, task).1.AddQueued? then 1 else 0)
  {
  }

  lemma PassService(p: Params, s: Pool, w: nat, wake: nat, r: (Core, WorkOutcome))
    requires RingOk(s.core.ring) && w < |s.workers| && (s.workers[w].AtLock? || s.workers[w].Woken?)
    requires r == WorkPass(s.core) || r == WakePass(p, s.core)
    ensures ServiceLeft(AfterWork(s, w, wake, r)) < ServiceLeft(s)
  {
    PassDecreases(p, s, w, wake, r);
    hide WorkLeft, CallsLeft, WorkPass, WakePass;
    if wake < |s.producers| && s.producers[wake].Blocked? {
      CallsUpdate(s.producers, wake, Notified(s.producers[wake].task));
    }
  }

  lemma ServiceDecreases(p: Params, s: Pool, a: Action)
    requires CoreOk(p, s.core) && Enabled(p, s, a) && ServiceAction(a)
    ensures ServiceLeft(Apply(p, s, a)) < ServiceLeft(s)
  {
    hide ServiceLeft, WorkPass, WakePass, AddPass, AfterAdd, AfterWork;
    match a
    case Produce(i, wake) => ProduceDecreases(p, s, i, wake);
    case Work(w, wake) => PassService(p, s, w, wake, WorkPass(s.core));
    case Wake(w, wake) => PassService(p, s, w, wake, WakePass(p, s.core));
    case _ => TaskStepService(p, s, a);
  }

  lemma TaskStepService(p: Params, s: Pool, a: Action)
    requires CoreOk(p, s.core) && Enabled(p, s, a) && WorkerAction(a) && !a.Work? && !a.Wake?
    ensures ServiceLeft(Apply(p, s, a)) < ServiceLeft(s)
  {
    hide WorkLeft, CallsLeft, ClearSlot;
    TaskStepDecreases(p, s, a);
  }

  /** Once submissions stop, workers and producers together come to rest: no run of their
      steps from `s` is longer than `ServiceLeft(s)`. */
  lemma {:induction false} ServiceRunsAreFinite(p: Params, s: Pool, acts: seq<Action>, t: Pool)
    requires CoreOk(p, s.core) && Runs(p, s, acts, t)
    requires forall i :: 0 <= i < |acts| ==> ServiceAction(acts[i])
    ensures |acts| + ServiceLeft(t) <= ServiceLeft(s)
    decreases acts
  {
    hide ServiceLeft, Apply, Enabled, ServiceAction;
    if acts != [] {
      ServiceDecreases(p, s, acts[0]);
      ServiceRunsAreFinite(p, Apply(p, s, acts[0]), acts[1..], t);
    }
  }

  // --------------------------------------------------------------------- rest

  ghost predicate ServiceRests(p: Params, s: Pool) {
    forall a :: ServiceAction(a) ==> !Enabled(p, s, a)
  }

  lemma WorkersRestToo(p: Params, s: Pool)
    requires ServiceRests(p, s)
    ensures AtRest(p, s)
  {
    hide Enabled;
  }

  lemma NobodyAdding(p: Params, s: Pool, i: nat)
    requires ServiceRests(p, s) && LockFree(s) && i < |s.producers|
    ensures !s.producers[i].Adding? && !s.producers[i].Notified?
  {
    var wake := SomeTarget(s.workers);
    assert !Enabled(p, s, Produce(i, wake));
  }

  lemma SomeTarget(ws: seq<WorkerPc>) returns (w: nat)
    ensures WorkerTarget(ws, w)
  {
    w := 0;
    if exists v :: 0 <= v < |ws| && ws[v].Sleeping? {
      w :| 0 <= w < |ws| && ws[w].Sleeping?;
    }
  }

  /** Where workers and producers of any pool come to rest before shutdown, whoever is still
      blocked is so because the ring is full, of tasks that retirements have stranded. */
  lemma BlockedOnlyIfStranded(p: Params, s: Pool)
    requires ValidParams(p) && Reachable(p, s) && !s.core.shutdown && LockFree(s) && ServiceRests(p, s)
    ensures forall i :: 0 <= i < |s.producers| ==> s.producers[i].Accepted? || s.producers[i].Blocked?
    ensures SomeoneBlocked(s.producers) ==> s.core.ring.size == p.capacity <= Count(s.workers, IsRetired)
  {
    WorkersRestToo(p, s);
    RestingState(p, s);
    TasksConserved(p, s);
    var cells: seq<Task>, acts: seq<Action> :| |cells| == p.capacity && Runs(p, Start(p, cells), acts, s);
    SubmissionsKept(p, cells, acts, s);
    hide Runs, Start, ServiceRests, AtRest;
    forall i | 0 <= i < |s.producers| ensures s.producers[i].Accepted? || s.producers[i].Blocked? {
      NobodyAdding(p, s, i);
    }
    if SomeoneBlocked(s.producers) {
      NotFullAccounting(p, s);
      CountNone(s.producers, IsNotified);
    }
  }

  /** A pool of fixed size serves every call: where it rests before shutdown nobody is
      blocked, every submitted task has been accepted, and every accepted one is done. */
  lemma FixedPoolServesAll(p: Params, cells: seq<Task>, acts: seq<Action>, s: Pool)
    requires ValidParams(p) && p.minNum == p.maxNum && |cells| == p.capacity && Runs(p, Start(p, cells), acts, s)
    requires !s.core.shutdown && ServiceRests(p, s)
    ensures forall i :: 0 <= i < |s.producers| ==> s.producers[i].Accepted?
    ensures multiset(s.dequeued) == multiset(Submitted(acts))
    ensures s.core.ring.size == 0 && forall k :: 0 <= k < |s.dequeued| ==> k in s.done
  {
    assert Reachable(p, s);
    SubmissionsKept(p, cells, acts, s);
    WorkersRestToo(p, s);
    FixedPoolFinishes(p, s);
    NeverScans(p, s);
    BlockedOnlyIfStranded(p, s);
    TasksConserved(p, s);
    hide Runs, Start, ServiceRests, AtRest, Reachable;
    NobodyRetired(s);
    AllAccepted(s.producers);
    assert s.accepted == s.dequeued;
  }

  lemma NobodyRetired(s: Pool)
    requires forall w :: 0 <= w < |s.workers| ==> s.workers[w].Sleeping?
    ensures Count(s.workers, IsRetired) == 0
  {
    CountNone(s.workers, IsRetired);
  }

  lemma NeverScans(p: Params, s: Pool)
    requires ValidParams(p) && p.minNum == p.maxNum && Reachable(p, s)
    ensures LockFree(s)
  {
    ReachableInv(p, s);
  }
}
