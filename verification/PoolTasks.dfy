/** No task is lost, duplicated or reordered, in any interleaving: accepted tasks are
    the dequeued ones followed by the ring, and each dequeued one is with exactly
    one worker until it is done. */
module PoolTasks {
  import opened Counting
  import opened PoolCore
  import opened PoolSystem
  import opened PoolCounters

  /** Holds a task that has not returned yet. */
  predicate Holds(pc: WorkerPc, task: Task, k: nat) {
    pc == Claimed(task, k) || pc == Running(task, k)
  }

  predicate HasTicket(pc: WorkerPc) {
    pc.Claimed? || pc.Running? || pc.Returned?
  }

  /** The task a worker is on is the one it dequeued under that ticket. */
  ghost predicate WorkerTask(s: Pool, w: nat)
    requires w < |s.workers|
  {
    var pc := s.workers[w];
    HasTicket(pc) ==>
      && pc.ticket < |s.dequeued| == |s.takers| && s.takers[pc.ticket] == w
      && (pc.ticket in s.done <==> pc.Returned?)
      && (!pc.Returned? ==> pc.task == s.dequeued[pc.ticket])
  }

  /** A dequeued task is done, or its taker is on it; it was started once unless
      its taker has not begun. */
  ghost predicate TicketOk(s: Pool, k: nat)
    requires k < |s.dequeued| == |s.takers|
  {
    && s.takers[k] < |s.workers|
    && (k !in s.done ==> Holds(s.workers[s.takers[k]], s.dequeued[k], k))
    && s.starts[k] == Bit(k in s.done || s.workers[s.takers[k]].Running?)
  }

  ghost predicate TasksOk(s: Pool) {
    && RingOk(s.core.ring)
    && s.accepted == s.dequeued + Contents(s.core.ring)
    && |s.takers| == |s.dequeued|
    && (forall w :: 0 <= w < |s.workers| ==> WorkerTask(s, w))
    && (forall k :: 0 <= k < |s.dequeued| ==> TicketOk(s, k))
    && (forall k: nat :: k >= |s.dequeued| ==> k !in s.done && s.starts[k] == 0)
  }

  lemma StartTasks(p: Params, cells: seq<Task>)
    requires ValidParams(p) && |cells| == p.capacity
    ensures TasksOk(Start(p, cells))
  {
  }

  /** Steps that touch neither the ring nor a ticket. */
  lemma TasksNeutral(s: Pool, t: Pool, w: nat, pc: WorkerPc)
    requires TasksOk(s)
    requires t.core.ring == s.core.ring && t.accepted == s.accepted && t.dequeued == s.dequeued
    requires t.takers == s.takers && t.done == s.done && t.starts == s.starts
    requires t.workers == s.workers || t.workers == s.workers + [AtLock]
      || (w < |s.workers| && t.workers == s.workers[w := pc] && !HasTicket(s.workers[w]) && !HasTicket(pc))
    ensures TasksOk(t)
  {
    forall v | 0 <= v < |t.workers| ensures WorkerTask(t, v) {
      assert v < |s.workers| ==> WorkerTask(s, v);
    }
    forall k | 0 <= k < |t.dequeued| ensures TicketOk(t, k) {
      assert TicketOk(s, k);
    }
  }

  lemma TasksAdd(s: Pool, i: nat, wake: nat, task: Task)
    requires TasksOk(s) && i < |s.producers|
    ensures TasksOk(AfterAdd(s, i, task, wake, AddPass(s.core, task)))
  {
    var t := AfterAdd(s, i, task, wake, AddPass(s.core, task));
    TasksNeutral(s, s.(workers := t.workers), wake, Woken);
    if s.core.ring.size < |s.core.ring.cells| {
      PutAppends(s.core.ring, task);
    }
    forall v | 0 <= v < |t.workers| ensures WorkerTask(t, v) {
      assert WorkerTask(s.(workers := t.workers), v);
    }
    forall k | 0 <= k < |t.dequeued| ensures TicketOk(t, k) {
      assert TicketOk(s.(workers := t.workers), k);
    }
  }

  /** A worker's pass either leaves the ring alone or takes its head under a new ticket. */
  lemma TasksWork(p: Params, s: Pool, w: nat, wake: nat, r: (Core, WorkOutcome))
    requires TasksOk(s) && w < |s.workers| && !HasTicket(s.workers[w])
    requires r == WorkPass(s.core) || r == WakePass(p, s.core)
    ensures TasksOk(AfterWork(s, w, wake, r))
  {
    hide TasksOk, Contents;
    var t := AfterWork(s, w, wake, r);
    if r.1.WorkTakes? {
      TasksTake(s, w, r.1.task, t);
    } else {
      TasksNeutral(s, t, w, t.workers[w]);
    }
  }

  lemma TasksTake(s: Pool, w: nat, task: Task, t: Pool)
    requires TasksOk(s) && w < |s.workers| && !HasTicket(s.workers[w]) && s.core.ring.size > 0
    requires task == Head(s.core.ring) && t.core.ring == Take(s.core.ring) && t.accepted == s.accepted
    requires t.dequeued == s.dequeued + [task] && t.takers == s.takers + [w]
    requires t.workers == s.workers[w := Claimed(task, |s.dequeued|)] && t.done == s.done && t.starts == s.starts
    ensures TasksOk(t)
  {
    hide Contents, Take;
    TakeDropsOldest(s.core.ring);
    forall v | 0 <= v < |t.workers| ensures WorkerTask(t, v) {
      assert WorkerTask(s, v);
    }
    forall k | 0 <= k < |t.dequeued| ensures TicketOk(t, k) {
      assert k < |s.dequeued| ==> TicketOk(s, k);
    }
  }

  lemma TasksRun(p: Params, s: Pool, a: Action)
    requires CoreOk(p, s.core) && Enabled(p, s, a) && (a.StartTask? || a.FinishTask? || a.EndTask?)
    requires TasksOk(s)
    ensures TasksOk(Apply(p, s, a))
  {
    var t := Apply(p, s, a);
    assert WorkerTask(s, a.w);
    forall v | 0 <= v < |t.workers| ensures WorkerTask(t, v) {
      assert WorkerTask(s, v);
    }
    forall k | 0 <= k < |t.dequeued| ensures TicketOk(t, k) {
      assert TicketOk(s, k);
    }
  }

  lemma TasksManager(p: Params, s: Pool, a: Action)
    requires CoreOk(p, s.core) && Enabled(p, s, a) && ManagerAction(a) && TasksOk(s)
    ensures TasksOk(Apply(p, s, a))
  {
    hide TasksOk;
    TasksNeutral(s, Apply(p, s, a), if a.ManagerSignal? then a.wake else 0, Woken);
  }

  lemma TasksStep(p: Params, s: Pool, a: Action)
    requires CoreOk(p, s.core) && Enabled(p, s, a)
    requires TasksOk(s)
    ensures TasksOk(Apply(p, s, a))
  {
    hide TasksOk, Contents, Put, Take, AddPass, WorkPass, WakePass, AfterAdd, AfterWork;
    var t := Apply(p, s, a);
    match a
    case Produce(i, wake) => TasksAdd(s, i, wake, s.producers[i].task);
    case Work(w, wake) => TasksWork(p, s, w, wake, WorkPass(s.core));
    case Wake(w, wake) => TasksWork(p, s, w, wake, WakePass(p, s.core));
    case StartTask(w) => TasksRun(p, s, a);
    case FinishTask(w) => TasksRun(p, s, a);
    case EndTask(w) => TasksRun(p, s, a);
    case ExitThread(w) => TasksNeutral(s, t, w, t.workers[w]);
    case SpuriousWorker(w) => TasksNeutral(s, t, w, Woken);
    case Submit(_) => TasksNeutral(s, t, 0, Woken);
    case SpuriousProducer(_) => TasksNeutral(s, t, 0, Woken);
    case Shutdown => TasksNeutral(s, t, 0, Woken);
    case _ => TasksManager(p, s, a);
  }
}
