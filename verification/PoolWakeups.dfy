/** How far a wakeup can go astray.  On `notFull` never; on `notEmpty` only through a
    worker that retires with the signal in its hand. */
module PoolWakeups {
  import opened Counting
  import opened PoolCore
  import opened PoolSystem
  import opened PoolCounters

  predicate IsNotified(pc: ProducerPc) { pc.Notified? }

  ghost predicate SomeoneSleeps(ws: seq<WorkerPc>) {
    exists w :: 0 <= w < |ws| && ws[w].Sleeping?
  }

  ghost predicate SomeoneBlocked(ps: seq<ProducerPc>) {
    exists i :: 0 <= i < |ps| && ps[i].Blocked?
  }

  /** Beside a sleeping worker there are no more queued tasks than woken workers
      plus retirements so far. */
  ghost predicate NotEmptyOk(s: Pool) {
    !s.core.shutdown && SomeoneSleeps(s.workers) ==>
      s.core.ring.size <= Count(s.workers, IsWoken) + Count(s.workers, IsRetired)
  }

  /** Beside a blocked producer there are no more free cells than notified producers. */
  ghost predicate NotFullOk(s: Pool) {
    !s.core.shutdown && SomeoneBlocked(s.producers) ==>
      |s.core.ring.cells| - s.core.ring.size <= Count(s.producers, IsNotified)
  }

  lemma StartWakeups(p: Params, cells: seq<Task>)
    requires ValidParams(p) && |cells| == p.capacity
    ensures NotEmptyOk(Start(p, cells)) && NotFullOk(Start(p, cells))
  {
  }

  lemma NotEmptyAdd(s: Pool, i: nat, wake: nat, task: Task)
    requires NotEmptyOk(s) && RingOk(s.core.ring) && i < |s.producers| && WorkerTarget(s.workers, wake)
    ensures NotEmptyOk(AfterAdd(s, i, task, wake, AddPass(s.core, task)))
  {
    if wake < |s.workers| {
      Moved(s.workers, wake, Woken);
    }
  }

  lemma NotEmptyWork(p: Params, s: Pool, w: nat, wake: nat, r: (Core, WorkOutcome))
    requires NotEmptyOk(s) && RingOk(s.core.ring) && w < |s.workers|
    requires (s.workers[w].AtLock? && r == WorkPass(s.core)) || (s.workers[w].Woken? && r == WakePass(p, s.core))
    ensures NotEmptyOk(AfterWork(s, w, wake, r))
  {
    hide Count;
    var t := AfterWork(s, w, wake, r);
    Moved(s.workers, w, t.workers[w]);
    if SomeoneSleeps(t.workers) && !t.workers[w].Sleeping? {
      var v :| 0 <= v < |t.workers| && t.workers[v].Sleeping?;
      assert s.workers[v].Sleeping?;
    }
  }

  /** Other steps put nobody to sleep and leave `queueSize` alone. */
  lemma NotEmptyNeutral(s: Pool, t: Pool, w: nat, pc: WorkerPc)
    requires NotEmptyOk(s)
    requires t.core.ring.size == s.core.ring.size && (t.core.shutdown || !s.core.shutdown)
    requires t.workers == s.workers || t.workers == s.workers + [AtLock]
      || (w < |s.workers| && t.workers == s.workers[w := pc]
          && !s.workers[w].Woken? && !pc.Sleeping? && IsRetired(pc) == IsRetired(s.workers[w]))
    ensures NotEmptyOk(t)
  {
    if t.workers == s.workers + [AtLock] {
      Created(s.workers);
    } else if w < |s.workers| {
      Moved(s.workers, w, pc);
    }
    if SomeoneSleeps(t.workers) {
      var v :| 0 <= v < |t.workers| && t.workers[v].Sleeping?;
      assert s.workers[v].Sleeping?;
    }
  }

  lemma NotEmptyManager(p: Params, s: Pool, a: Action)
    requires CoreOk(p, s.core) && Enabled(p, s, a) && ManagerAction(a) && NotEmptyOk(s)
    ensures NotEmptyOk(Apply(p, s, a))
  {
    hide NotEmptyOk;
    NotEmptyNeutral(s, Apply(p, s, a), if a.ManagerSignal? then a.wake else 0, Woken);
  }

  lemma NotEmptyStep(p: Params, s: Pool, a: Action)
    requires CoreOk(p, s.core) && Enabled(p, s, a)
    requires NotEmptyOk(s)
    ensures NotEmptyOk(Apply(p, s, a))
  {
    hide NotEmptyOk, Put, Take, AddPass, WorkPass, WakePass, AfterAdd, AfterWork;
    var t := Apply(p, s, a);
    match a
    case Produce(i, wake) => NotEmptyAdd(s, i, wake, s.producers[i].task);
    case Work(w, wake) => NotEmptyWork(p, s, w, wake, WorkPass(s.core));
    case Wake(w, wake) => NotEmptyWork(p, s, w, wake, WakePass(p, s.core));
    case StartTask(w) => NotEmptyNeutral(s, t, w, t.workers[w]);
    case FinishTask(w) => NotEmptyNeutral(s, t, w, t.workers[w]);
    case EndTask(w) => NotEmptyNeutral(s, t, w, t.workers[w]);
    case ExitThread(w) => NotEmptyNeutral(s, t, w, t.workers[w]);
    case SpuriousWorker(w) => NotEmptyNeutral(s, t, w, Woken);
    case Submit(_) => NotEmptyNeutral(s, t, 0, Woken);
    case SpuriousProducer(_) => NotEmptyNeutral(s, t, 0, Woken);
    case Shutdown => NotEmptyNeutral(s, t, 0, Woken);
    case _ => NotEmptyManager(p, s, a);
  }

  lemma NotFullAdd(s: Pool, i: nat, wake: nat, task: Task)
    requires NotFullOk(s) && RingOk(s.core.ring) && i < |s.producers|
    requires (s.producers[i].Adding? || s.producers[i].Notified?)
    ensures NotFullOk(AfterAdd(s, i, task, wake, AddPass(s.core, task)))
  {
    var t := AfterAdd(s, i, task, wake, AddPass(s.core, task));
    CountUpdate(s.producers, i, t.producers[i], IsNotified);
    if SomeoneBlocked(t.producers) && !t.producers[i].Blocked? {
      var j :| 0 <= j < |t.producers| && t.producers[j].Blocked?;
      assert s.producers[j].Blocked?;
    }
  }

  lemma NotFullWork(p: Params, s: Pool, w: nat, wake: nat, r: (Core, WorkOutcome))
    requires NotFullOk(s) && RingOk(s.core.ring) && w < |s.workers| && ProducerTarget(s.producers, wake)
    requires r == WorkPass(s.core) || r == WakePass(p, s.core)
    ensures NotFullOk(AfterWork(s, w, wake, r))
  {
    var t := AfterWork(s, w, wake, r);
    if wake < |s.producers| {
      CountUpdate(s.producers, wake, t.producers[wake], IsNotified);
    }
    if SomeoneBlocked(t.producers) {
      var j :| 0 <= j < |t.producers| && t.producers[j].Blocked?;
      assert s.producers[j].Blocked?;
    }
  }

  lemma NotFullNeutral(s: Pool, t: Pool, i: nat)
    requires NotFullOk(s)
    requires t.core.ring == s.core.ring && (t.core.shutdown || !s.core.shutdown)
    requires t.producers == s.producers || (exists task :: t.producers == s.producers + [Adding(task)])
      || (i < |s.producers| && s.producers[i].Blocked?
          && t.producers == s.producers[i := Notified(s.producers[i].task)])
    ensures NotFullOk(t)
  {
    if |t.producers| > |s.producers| {
      var task :| t.producers == s.producers + [Adding(task)];
      CountAppend(s.producers, Adding(task), IsNotified);
    } else if t.producers != s.producers {
      CountUpdate(s.producers, i, t.producers[i], IsNotified);
    }
    if SomeoneBlocked(t.producers) {
      var j :| 0 <= j < |t.producers| && t.producers[j].Blocked?;
      assert s.producers[j].Blocked?;
    }
  }

  lemma NotFullStep(p: Params, s: Pool, a: Action)
    requires CoreOk(p, s.core) && Enabled(p, s, a)
    requires NotFullOk(s)
    ensures NotFullOk(Apply(p, s, a))
  {
    hide NotFullOk, Put, Take, AddPass, WorkPass, WakePass, AfterAdd, AfterWork;
    var t := Apply(p, s, a);
    match a
    case Produce(i, wake) => NotFullAdd(s, i, wake, s.producers[i].task);
    case Work(w, wake) => NotFullWork(p, s, w, wake, WorkPass(s.core));
    case Wake(w, wake) => NotFullWork(p, s, w, wake, WakePass(p, s.core));
    case SpuriousProducer(i) => NotFullNeutral(s, t, i);
    case _ => NotFullNeutral(s, t, 0);
  }
}
