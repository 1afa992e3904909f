/** A retiring worker can swallow the signal of an addition and leave the task queued
    beside sleeping workers.  Here is exactly when a pool can get there. */
module PoolStranding {
  import opened Counting
  import opened Division
  import opened PoolCore
  import opened PoolSystem
  import opened PoolCounters
  import opened PoolWakeups
  import opened PoolTheorems
  import opened PoolScan

  /** A task is queued, every worker that has not left sleeps, one does, and the
      manager is about to look at the pool afresh: no signal is on its way. */
  ghost predicate Stranded(s: Pool) {
    && !s.core.shutdown && s.core.ring.size > 0 && s.manager == LoopTest
    && SomeoneSleeps(s.workers)
    && forall w :: 0 <= w < |s.workers| ==> s.workers[w].Sleeping? || s.workers[w].Gone?
  }

  /** Stranding is possible exactly when the pool can grow at all: when there is room
      above `minNum` for threads and the queue can get longer than `minNum`. */
  lemma StrandingIffElastic(p: Params)
    requires ValidParams(p)
    ensures (exists s :: Reachable(p, s) && Stranded(s)) <==> p.minNum < p.maxNum && p.minNum < p.capacity
  {
    if p.minNum < p.maxNum && p.minNum < p.capacity {
      var s := StrandedRun(p);
    } else {
      forall s | Reachable(p, s) ensures !Stranded(s) {
        RigidNeverStrands(p, s);
      }
    }
  }

  // ------------------------------------------------------------ impossible

  /** A pool that cannot grow keeps its first workers and never scans. */
  ghost predicate Rigid(p: Params, s: Pool) {
    && |s.workers| == p.minNum && !s.manager.Scanning?
    && (s.manager.SawQueue? || s.manager.SawBusy? ==> s.manager.queued <= p.capacity)
  }

  lemma RigidStep(p: Params, s: Pool, a: Action)
    requires ValidParams(p) && (p.minNum == p.maxNum || p.capacity <= p.minNum)
    requires CoreOk(p, s.core) && BoundsOk(p, s) && Rigid(p, s) && Enabled(p, s, a)
    ensures Rigid(p, Apply(p, s, a))
  {
    if ManagerAction(a) {
      RigidManager(p, s, a);
    } else if a.Work? {
      RigidWork(p, s, a.w, a.wake, WorkPass(s.core));
    } else if a.Wake? {
      RigidWork(p, s, a.w, a.wake, WakePass(p, s.core));
    }
  }

  lemma RigidManager(p: Params, s: Pool, a: Action)
    requires ValidParams(p) && (p.minNum == p.maxNum || p.capacity <= p.minNum)
    requires CoreOk(p, s.core) && BoundsOk(p, s) && Rigid(p, s) && Enabled(p, s, a) && ManagerAction(a)
    ensures Rigid(p, Apply(p, s, a))
  {
    hide AfterScan;
  }

  lemma RigidWork(p: Params, s: Pool, w: nat, wake: nat, r: (Core, WorkOutcome))
    requires Rigid(p, s) && RingOk(s.core.ring) && w < |s.workers|
    requires r == WorkPass(s.core) || r == WakePass(p, s.core)
    ensures Rigid(p, AfterWork(s, w, wake, r))
  {
    hide WorkPass, WakePass;
  }

  lemma {:induction false} RigidRuns(p: Params, s: Pool, acts: seq<Action>, t: Pool)
    requires ValidParams(p) && (p.minNum == p.maxNum || p.capacity <= p.minNum)
    requires CoreOk(p, s.core) && BoundsOk(p, s) && Rigid(p, s) && Runs(p, s, acts, t)
    ensures Rigid(p, t)
    decreases acts
  {
    hide BoundsOk, Rigid, Apply, Enabled;
    if acts != [] {
      BoundsStep(p, s, acts[0]);
      RigidStep(p, s, acts[0]);
      RigidRuns(p, Apply(p, s, acts[0]), acts[1..], t);
    }
  }

  lemma RigidNeverStrands(p: Params, s: Pool)
    requires ValidParams(p) && (p.minNum == p.maxNum || p.capacity <= p.minNum) && Reachable(p, s)
    ensures !Stranded(s)
  {
    var cells: seq<Task>, acts: seq<Action> :| |cells| == p.capacity && Runs(p, Start(p, cells), acts, s);
    StartCounters(p, cells);
    RigidRuns(p, Start(p, cells), acts, s);
    if Stranded(s) {
      hide Runs, Start;
      ElasticBounds(p, s);
      NotEmptyAccounting(p, s);
      CountNone(s.workers, IsWoken);
      assert false;
    }
  }

  // -------------------------------------------------------------- possible

  lemma {:induction false} RunsConcat(p: Params, s: Pool, acts: seq<Action>, t: Pool, more: seq<Action>, u: Pool)
    requires CoreOk(p, s.core) && CoreOk(p, t.core) && Runs(p, s, acts, t) && Runs(p, t, more, u)
    ensures Runs(p, s, acts + more, u)
    decreases acts
  {
    hide Enabled, Apply;
    if acts == [] {
      assert acts + more == more;
    } else {
      RunsConcat(p, Apply(p, s, acts[0]), acts[1..], t, more, u);
      assert (acts + more)[1..] == acts[1..] + more;
    }
  }

  /** What a reachable state leads to is reachable. */
  lemma ReachableOn(p: Params, s: Pool, more: seq<Action>, t: Pool)
    requires ValidParams(p) && Reachable(p, s) && CoreOk(p, s.core) && Runs(p, s, more, t)
    ensures Reachable(p, t)
  {
    hide Runs;
    var cells: seq<Task>, acts: seq<Action> :| |cells| == p.capacity && Runs(p, Start(p, cells), acts, s);
    RunsConcat(p, Start(p, cells), acts, s, more, t);
  }

  /** Takes one more step. */
  lemma Go(p: Params, s: Pool, a: Action) returns (t: Pool)
    requires ValidParams(p) && Reachable(p, s) && CoreOk(p, s.core) && Enabled(p, s, a)
    ensures t == Apply(p, s, a) && Reachable(p, t) && CoreOk(p, t.core)
  {
    hide Reachable, Enabled, Apply;
    t := Apply(p, s, a);
    assert [a][1..] == [] && Runs(p, t, [], t);
    ReachableOn(p, s, [a], t);
  }

  /** A reachable state before shutdown, with its workers and manager as given. */
  ghost predicate At(p: Params, s: Pool, workers: seq<WorkerPc>, manager: ManagerPc)
    requires ValidParams(p)
  {
    && Reachable(p, s) && CoreOk(p, s.core) && !s.core.shutdown && s.core.busy == 0
    && s.workers == workers && s.manager == manager
  }

  predicate AllAtLock(ws: seq<WorkerPc>) {
    forall w :: 0 <= w < |ws| ==> ws[w] == AtLock
  }

  /** One producer adds a task while there is room. */
  lemma AddOne(p: Params, s: Pool, wake: nat) returns (t: Pool)
    requires ValidParams(p) && At(p, s, s.workers, LoopTest)
    requires s.core.ring.size < p.capacity && WorkerTarget(s.workers, wake)
    ensures At(p, t, SignalWorker(s.workers, wake), LoopTest)
    ensures t.core == s.core.(ring := t.core.ring) && t.core.ring.size == s.core.ring.size + 1
  {
    var task := Task(0, 0);
    t := Go(p, s, Submit(task));
    t := Go(p, t, Produce(|s.producers|, wake));
  }

  lemma {:induction false} Fill(p: Params, s: Pool, n: nat) returns (t: Pool)
    requires ValidParams(p) && At(p, s, s.workers, LoopTest) && AllAtLock(s.workers)
    requires s.core.ring.size + n <= p.capacity
    ensures At(p, t, s.workers, LoopTest)
    ensures t.core == s.core.(ring := t.core.ring) && t.core.ring.size == s.core.ring.size + n
    decreases n
  {
    t := s;
    if n > 0 {
      t := AddOne(p, s, 0);
      t := Fill(p, t, n - 1);
    }
  }

  /** The manager's look at the pool, up to its decision to grow. */
  lemma Look(p: Params, s: Pool) returns (t: Pool)
    requires ValidParams(p) && At(p, s, s.workers, LoopTest)
    ensures At(p, t, s.workers, SawBusy(s.core.ring.size, s.core.live, 0)) && t.core == s.core
  {
    hide Reachable;
    t := Go(p, s, ManagerTest);
    t := Go(p, t, ManagerQueue);
    t := Go(p, t, ManagerBusy);
  }

  /** The manager grows the pool with everyone at the lock. */
  lemma GrowAtLock(p: Params, s: Pool) returns (t: Pool)
    requires ValidParams(p) && At(p, s, s.workers, s.manager) && ScanBegins(p, s) && AllAtLock(s.workers)
    ensures At(p, t, t.workers, ShrinkTest(s.manager.live, s.manager.busy)) && AllAtLock(t.workers)
    ensures t.core == s.core.(slots := t.core.slots, live := t.core.live)
    ensures t.core.live == s.core.live + Min(p.numberE, Count(s.core.slots, Vacant))
    ensures |t.workers| == |s.workers| + Min(p.numberE, Count(s.core.slots, Vacant))
  {
    hide Reachable, Runs, GrowScan;
    var acts;
    acts, t := ScanThrough(p, s);
    GrowFromReachable(p, s);
    ReachableOn(p, s, acts, t);
    TasksConserved(p, t);
  }

  /** Worker 0 takes the oldest task ... */
  lemma TakeOne(p: Params, s: Pool) returns (t: Pool)
    requires ValidParams(p) && At(p, s, s.workers, LoopTest) && AllAtLock(s.workers) && |s.workers| > 0
    requires s.core.ring.size > 0
    ensures exists task, k :: At(p, t, s.workers[0 := Claimed(task, k)], LoopTest)
    ensures t.core == s.core.(ring := t.core.ring) && t.core.ring.size == s.core.ring.size - 1
  {
    hide Reachable;
    var wake := FreeTarget(s.producers);
    t := Go(p, s, Work(0, wake));
    assert At(p, t, s.workers[0 := Claimed(t.workers[0].task, t.workers[0].ticket)], LoopTest);
  }

  /** ... and does it. */
  lemma DrainOne(p: Params, s: Pool) returns (t: Pool)
    requires ValidParams(p) && At(p, s, s.workers, LoopTest) && AllAtLock(s.workers) && |s.workers| > 0
    requires s.core.ring.size > 0
    ensures At(p, t, s.workers, LoopTest)
    ensures t.core == s.core.(ring := t.core.ring) && t.core.ring.size == s.core.ring.size - 1
  {
    hide Reachable;
    t := TakeOne(p, s);
    t := Go(p, t, StartTask(0));
    t := Go(p, t, FinishTask(0));
    t := Go(p, t, EndTask(0));
    assert t.workers == s.workers;
  }

  /** Worker 0 does all the queued work. */
  lemma {:induction false} Drain(p: Params, s: Pool) returns (t: Pool)
    requires ValidParams(p) && At(p, s, s.workers, LoopTest) && AllAtLock(s.workers) && |s.workers| > 0
    ensures At(p, t, s.workers, LoopTest)
    ensures t.core == s.core.(ring := t.core.ring) && t.core.ring.size == 0
    decreases s.core.ring.size
  {
    t := s;
    if s.core.ring.size > 0 {
      hide At, AllAtLock;
      t := DrainOne(p, s);
      t := Drain(p, t);
    }
  }

  /** Signals with nobody asleep are lost. */
  lemma {:induction false} SignalsLost(p: Params, s: Pool) returns (t: Pool)
    requires ValidParams(p) && At(p, s, s.workers, s.manager) && s.manager.Signalling? && AllAtLock(s.workers)
    ensures At(p, t, s.workers, LoopTest) && t.core == s.core
    decreases s.manager.left
  {
    t := Go(p, s, ManagerSignal(0));
    if t.manager.Signalling? {
      t := SignalsLost(p, t);
    }
  }

  /** With an empty queue the workers from `n` on go to sleep, one after another. */
  lemma {:induction false} FallAsleep(p: Params, s: Pool, n: nat) returns (t: Pool)
    requires ValidParams(p) && At(p, s, s.workers, LoopTest) && s.core.ring.size == 0 && n <= |s.workers|
    requires forall w :: 0 <= w < |s.workers| ==> s.workers[w] == if w < n then Sleeping else AtLock
    ensures At(p, t, seq(|s.workers|, _ => Sleeping), LoopTest) && t.core == s.core
    decreases |s.workers| - n
  {
    t := s;
    if n < |s.workers| {
      var wake := FreeTarget(s.producers);
      t := Go(p, s, Work(n, wake));
      t := FallAsleep(p, t, n + 1);
    }
  }

  /** With nobody leaving, a pool below its maximum has a vacant slot. */
  lemma VacantSlots(p: Params, s: Pool)
    requires ValidParams(p) && At(p, s, s.workers, s.manager) && AllAtLock(s.workers)
    ensures Count(s.core.slots, Vacant) == p.maxNum - s.core.live
  {
    CountSum<nat>(s.core.slots, Occupied, Vacant, AnyId);
    CountAll(s.core.slots, AnyId);
    SlotAccounting(p, s);
    CountNone(s.workers, IsRetiring);
  }

  /** More tasks than `minNum` make the manager grow the pool. */
  lemma Grown(p: Params) returns (t: Pool)
    requires ValidParams(p) && p.minNum < p.maxNum && p.minNum < p.capacity
    ensures At(p, t, t.workers, ShrinkTest(p.minNum, 0)) && AllAtLock(t.workers)
    ensures t.core.live > p.minNum && |t.workers| > p.minNum
  {
    var cells := seq(p.capacity, _ => Task(0, 0));
    t := Start(p, cells);
    assert Runs(p, t, [], t);
    hide Reachable, Runs;
    t := Fill(p, t, p.minNum + 1);
    t := Look(p, t);
    t := Go(p, t, ManagerGrowTest);
    VacantSlots(p, t);
    hide Start, At;
    t := GrowAtLock(p, t);
  }

  /** The first half: a pool that has grown, with no work left and everyone at the lock. */
  lemma GrownIdle(p: Params) returns (t: Pool)
    requires ValidParams(p) && p.minNum < p.maxNum && p.minNum < p.capacity
    ensures At(p, t, t.workers, LoopTest) && AllAtLock(t.workers)
    ensures t.core.ring.size == 0 && t.core.live > p.minNum && |t.workers| > p.minNum
  {
    hide Reachable;
    t := Grown(p);
    t := Go(p, t, ManagerShrinkTest);
    t := Drain(p, t);
  }

  /** An addition wakes a worker, which retires on the leftover budget and leaves the task. */
  lemma Swallow(p: Params, s: Pool) returns (t: Pool)
    requires ValidParams(p) && At(p, s, seq(|s.workers|, _ => Sleeping), LoopTest) && |s.workers| > 1
    requires s.core.ring.size == 0 && s.core.exitNum > 0 && s.core.live > p.minNum
    ensures Reachable(p, t) && Stranded(t)
  {
    hide Reachable;
    t := AddOne(p, s, 0);
    var wake := FreeTarget(t.producers);
    t := Go(p, t, Wake(0, wake));
    t := Go(p, t, ExitThread(0));
    assert t.workers[1].Sleeping?;
  }

  /** The second half: the manager's signals fall on deaf ears, so its budget is still
      there when an addition wakes a worker. */
  lemma StrandedRun(p: Params) returns (t: Pool)
    requires ValidParams(p) && p.minNum < p.maxNum && p.minNum < p.capacity
    ensures Reachable(p, t) && Stranded(t)
  {
    hide Reachable, Stranded;
    t := GrownIdle(p);
    t := Look(p, t);
    t := Go(p, t, ManagerGrowTest);
    t := Go(p, t, ManagerShrinkTest);
    t := SignalsLost(p, t);
    t := FallAsleep(p, t, 0);
    t := Swallow(p, t);
  }
}
