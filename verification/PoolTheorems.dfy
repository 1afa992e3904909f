/** What holds of the pool in every reachable state, and where it comes to rest. */
module PoolTheorems {
  import opened Counting
  import opened PoolCore
  import opened PoolSystem
  import opened PoolCounters
  import opened PoolTasks
  import opened PoolWakeups

  ghost predicate Inv(p: Params, s: Pool) {
    && CoreOk(p, s.core) && BoundsOk(p, s) && QuitOk(s) && CountsOk(p, s) && SlotsOk(s)
    && TasksOk(s) && NotEmptyOk(s) && NotFullOk(s)
  }

  lemma InvStep(p: Params, s: Pool, a: Action)
    requires ValidParams(p) && Inv(p, s) && Enabled(p, s, a)
    ensures Inv(p, Apply(p, s, a))
  {
    hide BoundsOk, QuitOk, CountsOk, SlotsOk, TasksOk, NotEmptyOk, NotFullOk, Apply, Enabled;
    BoundsStep(p, s, a);
    QuitStep(p, s, a);
    CountsStep(p, s, a);
    SlotsStep(p, s, a);
    TasksStep(p, s, a);
    NotEmptyStep(p, s, a);
    NotFullStep(p, s, a);
  }

  lemma {:induction false} InvRuns(p: Params, s: Pool, acts: seq<Action>, t: Pool)
    requires ValidParams(p) && CoreOk(p, s.core) && Inv(p, s) && Runs(p, s, acts, t)
    ensures Inv(p, t)
    decreases acts
  {
    hide Inv;
    if acts != [] {
      InvStep(p, s, acts[0]);
      InvRuns(p, Apply(p, s, acts[0]), acts[1..], t);
    }
  }

  /** The invariant holds after every run, of any length and interleaving. */
  lemma ReachableInv(p: Params, s: Pool)
    requires ValidParams(p) && Reachable(p, s)
    ensures Inv(p, s)
  {
    var cells: seq<Task>, acts: seq<Action> :| |cells| == p.capacity && Runs(p, Start(p, cells), acts, s);
    StartCounters(p, cells);
    StartTasks(p, cells);
    StartWakeups(p, cells);
    InvRuns(p, Start(p, cells), acts, s);
  }

  // --------------------------------------------------------------- counters

  /** Threads the manager has created so far. */
  function CreatedByManager(p: Params, s: Pool): int { |s.workers| - p.minNum }

  /** Stale snapshots never push the pool out of its bounds. */
  lemma ElasticBounds(p: Params, s: Pool)
    requires ValidParams(p) && Reachable(p, s)
    ensures p.minNum <= s.core.live <= p.maxNum
    ensures 0 <= s.core.exitNum <= p.numberE
    ensures 0 <= s.core.busy <= s.core.live
    ensures s.core.live == p.minNum + CreatedByManager(p, s) - Count(s.workers, IsRetired)
    ensures Count(s.workers, IsRetired) <= p.numberE * s.shrinks
  {
    ReachableInv(p, s);
    CountSum(s.workers, IsRetired, IsCharged, IsAny);
    CountAll(s.workers, IsAny);
    CountMonotone(s.workers, IsBusy, IsCharged);
  }

  predicate IsAny(pc: WorkerPc) { true }

  /** Before shutdown the occupied slots are the live workers plus those that have
      decremented `liveNum` and not yet cleared their slot. */
  lemma SlotAccounting(p: Params, s: Pool)
    requires ValidParams(p) && Reachable(p, s) && !s.core.shutdown
    ensures Count(s.core.slots, Occupied) == s.core.live + Count(s.workers, IsRetiring)
  {
    ReachableInv(p, s);
    CountSum(s.workers, IsCharged, IsRetiring, IsPresent);
    CountSum(s.workers, IsRetired, IsCharged, IsAny);
    CountAll(s.workers, IsAny);
  }

  /** Every thread that has not left owns exactly one slot, even during shutdown. */
  lemma OneSlotEach(p: Params, s: Pool, w: nat)
    requires ValidParams(p) && Reachable(p, s) && w < |s.workers| && IsPresent(s.workers[w])
    ensures exists j :: 0 <= j < |s.core.slots| && s.core.slots[j] == w + 1
    ensures forall i, j | 0 <= i < |s.core.slots| && 0 <= j < |s.core.slots| ::
      s.core.slots[i] == w + 1 && s.core.slots[j] == w + 1 ==> i == j
  {
    ReachableInv(p, s);
    assert OwnsSlot(s, w);
    forall i | 0 <= i < |s.core.slots| && s.core.slots[i] == w + 1 ensures i == s.home[w] {
      assert HasOwner(s, i);
    }
  }

  /** Wherever the manager stands to grow, one whole scan makes min(NUMBERE, vacant slots)
      threads, in vacant slots only, and stays within `maxNum`. */
  lemma GrowFromReachable(p: Params, s: Pool)
    requires ValidParams(p) && Reachable(p, s) && !s.core.shutdown
    ensures var r := GrowScan(p, s.core.slots, s.core.live, 0, 0, |s.workers| + 1);
      var vacant := Count(s.core.slots, Vacant);
      && r.1 == (if vacant < p.numberE then vacant else p.numberE)
      && s.core.live + r.1 <= p.maxNum
      && (forall j :: 0 <= j < |s.core.slots| && s.core.slots[j] != 0 ==> r.0[j] == s.core.slots[j])
  {
    TasksConserved(p, s);
    SlotAccounting(p, s);
    hide Reachable, GrowScan;
    GrowIsExact(p, s.core.slots, s.core.live, |s.workers| + 1);
  }

  // ------------------------------------------------------------------ tasks

  /** No loss, no duplication, first in first out: the accepted tasks are those
      dequeued so far, in that order, and then the ring's contents. */
  lemma TasksConserved(p: Params, s: Pool)
    requires ValidParams(p) && Reachable(p, s)
    ensures CoreOk(p, s.core) && s.accepted == s.dequeued + Contents(s.core.ring)
  {
    ReachableInv(p, s);
  }

  predicate Queued(s: Pool, k: nat) { |s.dequeued| <= k < |s.accepted| }

  predicate HoldsTicket(pc: WorkerPc, k: nat) {
    (pc.Claimed? || pc.Running?) && pc.ticket == k
  }

  ghost predicate InHand(s: Pool, k: nat) {
    exists w :: 0 <= w < |s.workers| && HoldsTicket(s.workers[w], k)
  }

  /** The k-th accepted task is in exactly one place: in the queue, or in the hands of
      exactly one worker, which then has that very task, or done.  It has been started
      at most once, and exactly once if it is done. */
  lemma ExactlyOnePlace(p: Params, s: Pool, k: nat)
    requires ValidParams(p) && Reachable(p, s) && k < |s.accepted|
    ensures Bit(Queued(s, k)) + Bit(InHand(s, k)) + Bit(k in s.done) == 1
    ensures forall w | 0 <= w < |s.workers| && HoldsTicket(s.workers[w], k) :: s.workers[w].task == s.accepted[k]
    ensures forall v, w | 0 <= v < |s.workers| && 0 <= w < |s.workers| ::
      HoldsTicket(s.workers[v], k) && HoldsTicket(s.workers[w], k) ==> v == w
    ensures s.starts[k] <= 1 && (k in s.done ==> s.starts[k] == 1)
  {
    ReachableInv(p, s);
    forall w | 0 <= w < |s.workers| && HoldsTicket(s.workers[w], k)
      ensures k < |s.dequeued| && k !in s.done && s.takers[k] == w && s.workers[w].task == s.accepted[k]
    {
      assert WorkerTask(s, w);
    }
    if k < |s.dequeued| {
      assert TicketOk(s, k);
    }
  }

  // ---------------------------------------------------------------- wakeups

  /** Before shutdown, beside a sleeping worker the queue is at most as long as the
      number of woken workers plus the retirements so far. */
  lemma NotEmptyAccounting(p: Params, s: Pool)
    requires ValidParams(p) && Reachable(p, s) && !s.core.shutdown && SomeoneSleeps(s.workers)
    ensures s.core.ring.size <= Count(s.workers, IsWoken) + Count(s.workers, IsRetired)
  {
    ReachableInv(p, s);
  }

  /** Before shutdown, beside a blocked producer the free capacity is at most the
      number of notified producers: no wakeup on `notFull` is ever lost. */
  lemma NotFullAccounting(p: Params, s: Pool)
    requires ValidParams(p) && Reachable(p, s) && !s.core.shutdown && SomeoneBlocked(s.producers)
    ensures p.capacity - s.core.ring.size <= Count(s.producers, IsNotified)
  {
    ReachableInv(p, s);
  }

  // ------------------------------------------------------------- quiescence

  /** A step of some worker that needs no new signal. */
  predicate WorkerAction(a: Action) {
    a.Work? || a.Wake? || a.StartTask? || a.FinishTask? || a.EndTask? || a.ExitThread?
  }

  function Phase(pc: WorkerPc): nat {
    match pc
    case Claimed(_, _) => 5
    case Running(_, _) => 4
    case Returned(_) => 3
    case AtLock => 2
    case Woken => 2
    case Leaving(_) => 1
    case Sleeping => 0
    case Gone(_) => 0
  }

  function PhaseSum(ws: seq<WorkerPc>): nat {
    if ws == [] then 0 else Phase(ws[0]) + PhaseSum(ws[1..])
  }

  lemma {:induction false} PhaseSumUpdate(ws: seq<WorkerPc>, w: nat, pc: WorkerPc)
    requires w < |ws|
    ensures PhaseSum(ws[w := pc]) + Phase(ws[w]) == PhaseSum(ws) + Phase(pc)
  {
    if w == 0 {
      assert ws[w := pc][1..] == ws[1..];
    } else {
      assert ws[w := pc][1..] == ws[1..][w - 1 := pc];
      PhaseSumUpdate(ws[1..], w - 1, pc);
    }
  }

  /** What the workers have left to do without further submissions or signals. */
  function WorkLeft(s: Pool): nat {
    4 * s.core.ring.size + PhaseSum(s.workers)
  }

  lemma PassDecreases(p: Params, s: Pool, w: nat, wake: nat, r: (Core, WorkOutcome))
    requires RingOk(s.core.ring) && w < |s.workers| && (s.workers[w].AtLock? || s.workers[w].Woken?)
    requires r == WorkPass(s.core) || r == WakePass(p, s.core)
    ensures WorkLeft(AfterWork(s, w, wake, r)) < WorkLeft(s)
  {
    hide PhaseSum;
    PhaseSumUpdate(s.workers, w, AfterWork(s, w, wake, r).workers[w]);
  }

  lemma WorkDecreases(p: Params, s: Pool, a: Action)
    requires CoreOk(p, s.core) && Enabled(p, s, a) && WorkerAction(a)
    ensures WorkLeft(Apply(p, s, a)) < WorkLeft(s)
  {
    hide PhaseSum;
    match a
    case Work(w, wake) => PassDecreases(p, s, w, wake, WorkPass(s.core));
    case Wake(w, wake) => PassDecreases(p, s, w, wake, WakePass(p, s.core));
    case _ => TaskStepDecreases(p, s, a);
  }

  lemma TaskStepDecreases(p: Params, s: Pool, a: Action)
    requires CoreOk(p, s.core) && Enabled(p, s, a) && WorkerAction(a) && !a.Work? && !a.Wake?
    ensures WorkLeft(Apply(p, s, a)) < WorkLeft(s)
  {
    hide PhaseSum;
    PhaseSumUpdate(s.workers, a.w, Apply(p, s, a).workers[a.w]);
  }

  /** Left to themselves the workers come to rest: no run of worker steps from `s`
      is longer than `WorkLeft(s)`. */
  lemma {:induction false} WorkerRunsAreFinite(p: Params, s: Pool, acts: seq<Action>, t: Pool)
    requires CoreOk(p, s.core) && Runs(p, s, acts, t)
    requires forall i :: 0 <= i < |acts| ==> WorkerAction(acts[i])
    ensures |acts| + WorkLeft(t) <= WorkLeft(s)
    decreases acts
  {
    if acts != [] {
      WorkDecreases(p, s, acts[0]);
      WorkerRunsAreFinite(p, Apply(p, s, acts[0]), acts[1..], t);
    }
  }

  ghost predicate AtRest(p: Params, s: Pool) {
    forall a :: WorkerAction(a) ==> !Enabled(p, s, a)
  }

  /** Where the workers come to rest before shutdown, nothing is half done, and the
      queue holds at most one task per retirement so far. */
  lemma RestingState(p: Params, s: Pool)
    requires ValidParams(p) && Reachable(p, s) && !s.core.shutdown && LockFree(s) && AtRest(p, s)
    ensures forall w :: 0 <= w < |s.workers| ==> s.workers[w].Sleeping? || s.workers[w] == Gone(true)
    ensures SomeoneSleeps(s.workers)
    ensures s.core.busy == 0
    ensures forall k :: 0 <= k < |s.dequeued| ==> k in s.done
    ensures s.core.ring.size <= Count(s.workers, IsRetired)
  {
    ReachableInv(p, s);
    WorkersRest(p, s);
    hide AtRest, CoreOk, SlotsOk, NotFullOk;
    CountNone(s.workers, IsBusy);
    CountNone(s.workers, IsWoken);
    forall k | 0 <= k < |s.dequeued| ensures k in s.done {
      assert TicketOk(s, k);
    }
    if forall w :: 0 <= w < |s.workers| ==> !s.workers[w].Sleeping? {
      CountAll(s.workers, IsRetired);
      assert false;
    }
  }

  lemma WorkersRest(p: Params, s: Pool)
    requires QuitOk(s) && !s.core.shutdown && LockFree(s) && AtRest(p, s)
    ensures forall w :: 0 <= w < |s.workers| ==> s.workers[w].Sleeping? || s.workers[w] == Gone(true)
  {
    var wake := FreeTarget(s.producers);
    forall w | 0 <= w < |s.workers| ensures s.workers[w].Sleeping? || s.workers[w] == Gone(true) {
      assert !Enabled(p, s, Action.Work(w, wake)) && !Enabled(p, s, Wake(w, wake));
      assert !Enabled(p, s, StartTask(w)) && !Enabled(p, s, FinishTask(w));
      assert !Enabled(p, s, EndTask(w)) && !Enabled(p, s, ExitThread(w));
      assert !QuitsOnShutdown(s.workers[w]);
    }
  }

  lemma FreeTarget(ps: seq<ProducerPc>) returns (i: nat)
    ensures ProducerTarget(ps, i)
  {
    i := 0;
    if exists j :: 0 <= j < |ps| && ps[j].Blocked? {
      i :| 0 <= i < |ps| && ps[i].Blocked?;
    }
  }

  /** With `minNum == maxNum` the workers rest only when all work is done: the ring is
      empty, every worker sleeps, nobody is busy and every accepted task is done. */
  lemma FixedPoolFinishes(p: Params, s: Pool)
    requires ValidParams(p) && p.minNum == p.maxNum
    requires Reachable(p, s) && !s.core.shutdown && AtRest(p, s)
    ensures s.core.ring.size == 0 && s.core.busy == 0
    ensures |s.workers| == p.minNum && forall w :: 0 <= w < |s.workers| ==> s.workers[w].Sleeping?
    ensures |s.dequeued| == |s.accepted| && forall k :: 0 <= k < |s.accepted| ==> k in s.done
  {
    ReachableInv(p, s);
    RestingState(p, s);
    forall w | 0 <= w < |s.workers| ensures s.workers[w].Sleeping? {
      if IsRetired(s.workers[w]) {
        CountPositive(s.workers, w, IsRetired);
        assert false;
      }
    }
  }
}
