/** The pool's counters agree with its real thread population in every reachable
    state, although the manager decides from stale snapshots. */
module PoolCounters {
  import opened Counting
  import opened PoolCore
  import opened PoolSystem

  predicate IsWoken(pc: WorkerPc) { pc.Woken? }

  /** Gave itself up through the retirement budget. */
  predicate IsRetired(pc: WorkerPc) { (pc.Leaving? || pc.Gone?) && pc.retired }

  /** Has decremented `liveNum` but still owns its slot. */
  predicate IsRetiring(pc: WorkerPc) { pc.Leaving? && pc.retired }

  predicate IsPresent(pc: WorkerPc) { !pc.Gone? }

  predicate IsCharged(pc: WorkerPc) { !IsRetired(pc) }

  predicate IsBusy(pc: WorkerPc) { pc.Running? || pc.Returned? }

  predicate QuitsOnShutdown(pc: WorkerPc) { (pc.Leaving? || pc.Gone?) && !pc.retired }

  /** The numbers a manager carries are possible values of `liveNum`. */
  predicate SnapshotOk(p: Params, m: ManagerPc) {
    match m
    case SawQueue(_, live) => p.minNum <= live <= p.maxNum
    case SawBusy(_, live, _) => p.minNum <= live <= p.maxNum
    case Scanning(i, created, live, _) =>
      p.minNum <= live < p.maxNum && i <= p.maxNum && created <= p.numberE
    case ShrinkTest(live, _) => p.minNum <= live <= p.maxNum
    case Signalling(left) => left <= p.numberE && p.minNum < p.maxNum
    case _ => true
  }

  /** `liveNum`, `busyNum` and the occupied slots count what they should. */
  ghost predicate PopulationOk(s: Pool) {
    && s.core.live == |s.workers| - Count(s.workers, IsRetired)
    && s.core.busy == Count(s.workers, IsBusy)
    && Count(s.core.slots, Occupied) == Count(s.workers, IsPresent)
  }

  ghost predicate BoundsOk(p: Params, s: Pool) {
    && p.minNum <= s.core.live <= p.maxNum
    && 0 <= s.core.exitNum <= p.numberE
    && SnapshotOk(p, s.manager)
    && (p.minNum == p.maxNum ==> s.shrinks == 0)
  }

  /** The retirement budget handed out so far covers the retirements and what is left. */
  ghost predicate BudgetOk(p: Params, s: Pool) {
    Count(s.workers, IsRetired) + s.core.exitNum <= p.numberE * s.shrinks
  }

  /** Only a shutdown makes a worker quit without retiring. */
  ghost predicate QuitOk(s: Pool) {
    !s.core.shutdown ==> forall w :: 0 <= w < |s.workers| ==> !QuitsOnShutdown(s.workers[w])
  }

  /** A worker that has not left owns the slot it was created in. */
  ghost predicate OwnsSlot(s: Pool, w: nat)
    requires w < |s.workers| == |s.home|
  {
    IsPresent(s.workers[w]) ==> s.home[w] < |s.core.slots| && s.core.slots[s.home[w]] == w + 1
  }

  /** An occupied slot is owned by the worker whose id it holds. */
  ghost predicate HasOwner(s: Pool, j: nat)
    requires j < |s.core.slots| && |s.workers| == |s.home|
  {
    var id := s.core.slots[j];
    id != 0 ==> id <= |s.workers| && s.home[id - 1] == j && IsPresent(s.workers[id - 1])
  }

  ghost predicate SlotsOk(s: Pool) {
    && |s.home| == |s.workers|
    && (forall w :: 0 <= w < |s.workers| ==> OwnsSlot(s, w))
    && (forall j :: 0 <= j < |s.core.slots| ==> HasOwner(s, j))
  }

  /** All the worker counts after one worker has moved. */
  lemma Moved(ws: seq<WorkerPc>, w: nat, pc: WorkerPc)
    requires w < |ws|
    ensures Count(ws[w := pc], IsRetired) + Bit(IsRetired(ws[w])) == Count(ws, IsRetired) + Bit(IsRetired(pc))
    ensures Count(ws[w := pc], IsPresent) + Bit(IsPresent(ws[w])) == Count(ws, IsPresent) + Bit(IsPresent(pc))
    ensures Count(ws[w := pc], IsBusy) + Bit(IsBusy(ws[w])) == Count(ws, IsBusy) + Bit(IsBusy(pc))
    ensures Count(ws[w := pc], IsWoken) + Bit(IsWoken(ws[w])) == Count(ws, IsWoken) + Bit(IsWoken(pc))
    ensures Count(ws[w := pc], IsRetiring) + Bit(IsRetiring(ws[w])) == Count(ws, IsRetiring) + Bit(IsRetiring(pc))
  {
    CountUpdate(ws, w, pc, IsRetired);
    CountUpdate(ws, w, pc, IsPresent);
    CountUpdate(ws, w, pc, IsBusy);
    CountUpdate(ws, w, pc, IsWoken);
    CountUpdate(ws, w, pc, IsRetiring);
  }

  lemma Created(ws: seq<WorkerPc>)
    ensures Count(ws + [AtLock], IsRetired) == Count(ws, IsRetired)
    ensures Count(ws + [AtLock], IsPresent) == Count(ws, IsPresent) + 1
    ensures Count(ws + [AtLock], IsBusy) == Count(ws, IsBusy)
    ensures Count(ws + [AtLock], IsWoken) == Count(ws, IsWoken)
  {
    CountAppend(ws, AtLock, IsRetired);
    CountAppend(ws, AtLock, IsPresent);
    CountAppend(ws, AtLock, IsBusy);
    CountAppend(ws, AtLock, IsWoken);
  }

  lemma StartCounters(p: Params, cells: seq<Task>)
    requires ValidParams(p) && |cells| == p.capacity
    ensures var s := Start(p, cells); PopulationOk(s) && BoundsOk(p, s) && BudgetOk(p, s) && QuitOk(s) && SlotsOk(s)
  {
    var s := Start(p, cells);
    CountNone(s.workers, IsRetired);
    CountNone(s.workers, IsBusy);
    CountAll(s.workers, IsPresent);
    CountPrefix(s.core.slots, p.minNum);
  }

  lemma {:induction false} CountPrefix(slots: seq<nat>, n: nat)
    requires n <= |slots|
    requires forall j :: 0 <= j < |slots| ==> (slots[j] != 0 <==> j < n)
    ensures Count(slots, Occupied) == n
  {
    if slots != [] {
      CountPrefix(slots[1..], if n == 0 then 0 else n - 1);
    }
  }

  lemma BoundsWork(p: Params, s: Pool, w: nat, wake: nat, r: (Core, WorkOutcome))
    requires ValidParams(p) && BoundsOk(p, s) && RingOk(s.core.ring) && w < |s.workers|
    requires r == WorkPass(s.core) || r == WakePass(p, s.core)
    ensures BoundsOk(p, AfterWork(s, w, wake, r))
  {
    hide SnapshotOk;
  }

  predicate ManagerAction(a: Action) {
    a.ManagerTest? || a.ManagerQueue? || a.ManagerBusy? || a.ManagerGrowTest? || a.ManagerScan?
    || a.ManagerShrinkTest? || a.ManagerSignal?
  }

  lemma BoundsManager(p: Params, s: Pool, a: Action)
    requires ValidParams(p) && CoreOk(p, s.core) && Enabled(p, s, a) && ManagerAction(a)
    requires BoundsOk(p, s)
    ensures BoundsOk(p, Apply(p, s, a))
  {
  }

  lemma BoundsStep(p: Params, s: Pool, a: Action)
    requires ValidParams(p) && CoreOk(p, s.core) && Enabled(p, s, a)
    requires BoundsOk(p, s)
    ensures BoundsOk(p, Apply(p, s, a))
  {
    hide SnapshotOk;
    if ManagerAction(a) {
      BoundsManager(p, s, a);
    } else if a.Work? {
      BoundsWork(p, s, a.w, a.wake, WorkPass(s.core));
    } else if a.Wake? {
      BoundsWork(p, s, a.w, a.wake, WakePass(p, s.core));
    }
  }

  lemma QuitWork(p: Params, s: Pool, w: nat, wake: nat, r: (Core, WorkOutcome))
    requires QuitOk(s) && RingOk(s.core.ring) && w < |s.workers|
    requires r == WorkPass(s.core) || r == WakePass(p, s.core)
    ensures QuitOk(AfterWork(s, w, wake, r))
  {
  }

  lemma QuitManager(p: Params, s: Pool, a: Action)
    requires CoreOk(p, s.core) && Enabled(p, s, a) && ManagerAction(a)
    requires QuitOk(s)
    ensures QuitOk(Apply(p, s, a))
  {
  }

  lemma QuitStep(p: Params, s: Pool, a: Action)
    requires CoreOk(p, s.core) && Enabled(p, s, a)
    requires QuitOk(s)
    ensures QuitOk(Apply(p, s, a))
  {
    if ManagerAction(a) {
      QuitManager(p, s, a);
    } else if a.Work? {
      QuitWork(p, s, a.w, a.wake, WorkPass(s.core));
    } else if a.Wake? {
      QuitWork(p, s, a.w, a.wake, WakePass(p, s.core));
    }
  }

  /** The counting part of the invariant. */
  ghost predicate CountsOk(p: Params, s: Pool) {
    PopulationOk(s) && BudgetOk(p, s)
  }

  /** A step that leaves the counters alone moves at most one worker, between two
      program points that the counters do not tell apart. */
  lemma CountsNeutral(p: Params, s: Pool, t: Pool, w: nat, pc: WorkerPc)
    requires CountsOk(p, s)
    requires t.core.live == s.core.live && t.core.busy == s.core.busy && t.core.slots == s.core.slots
    requires t.core.exitNum <= s.core.exitNum && t.shrinks == s.shrinks
    requires t.workers == s.workers || (w < |s.workers| && t.workers == s.workers[w := pc]
      && IsRetired(s.workers[w]) == IsRetired(pc) && IsPresent(s.workers[w]) == IsPresent(pc)
      && IsBusy(s.workers[w]) == IsBusy(pc))
    ensures CountsOk(p, t)
  {
    if w < |s.workers| {
      Moved(s.workers, w, pc);
    }
  }

  lemma CountsWork(p: Params, s: Pool, w: nat, wake: nat, r: (Core, WorkOutcome))
    requires CountsOk(p, s) && w < |s.workers| && (s.workers[w].AtLock? || s.workers[w].Woken?)
    requires RingOk(s.core.ring) && (r == WorkPass(s.core) || r == WakePass(p, s.core))
    ensures CountsOk(p, AfterWork(s, w, wake, r))
  {
    hide Count;
    Moved(s.workers, w, AfterWork(s, w, wake, r).workers[w]);
  }

  lemma CountsTask(p: Params, s: Pool, a: Action)
    requires CoreOk(p, s.core) && Enabled(p, s, a) && (a.StartTask? || a.FinishTask? || a.EndTask?)
    requires CountsOk(p, s)
    ensures CountsOk(p, Apply(p, s, a))
  {
    Moved(s.workers, a.w, Apply(p, s, a).workers[a.w]);
  }

  lemma CountsExit(p: Params, s: Pool, w: nat)
    requires CoreOk(p, s.core) && Enabled(p, s, ExitThread(w))
    requires CountsOk(p, s) && SlotsOk(s)
    ensures CountsOk(p, Apply(p, s, ExitThread(w)))
  {
    ExitClearsHome(p, s, w);
    CountUpdate(s.core.slots, s.home[w], 0, Occupied);
    Moved(s.workers, w, Gone(s.workers[w].retired));
  }

  lemma CountsScan(p: Params, s: Pool)
    requires CoreOk(p, s.core) && s.manager.Scanning?
    requires CountsOk(p, s)
    ensures CountsOk(p, AfterScan(p, s))
  {
    Created(s.workers);
    if s.manager.i < |s.core.slots| {
      CountUpdate<nat>(s.core.slots, s.manager.i, |s.workers| + 1, Occupied);
    }
  }

  /** One more budget pays for whatever the last one had left. */
  lemma BudgetGrows(budget: nat, shrinks: nat, retired: nat, left: int)
    requires 0 <= left && retired + left <= budget * shrinks
    ensures retired + budget <= budget * (shrinks + 1)
  {
    assert budget * (shrinks + 1) == budget * shrinks + budget;
  }

  lemma CountsShrink(p: Params, s: Pool)
    requires CoreOk(p, s.core) && s.manager.ShrinkTest?
    requires CountsOk(p, s) && BoundsOk(p, s)
    ensures CountsOk(p, Apply(p, s, ManagerShrinkTest))
  {
    hide Count;
    BudgetGrows(p.numberE, s.shrinks, Count(s.workers, IsRetired), s.core.exitNum);
  }

  lemma CountsStep(p: Params, s: Pool, a: Action)
    requires CoreOk(p, s.core) && Enabled(p, s, a)
    requires CountsOk(p, s) && BoundsOk(p, s) && SlotsOk(s)
    ensures CountsOk(p, Apply(p, s, a))
  {
    hide CountsOk, BoundsOk, SlotsOk;
    match a
    case Work(w, wake) => CountsWork(p, s, w, wake, WorkPass(s.core));
    case Wake(w, wake) => CountsWork(p, s, w, wake, WakePass(p, s.core));
    case StartTask(w) => CountsTask(p, s, a);
    case FinishTask(w) => CountsTask(p, s, a);
    case EndTask(w) => CountsTask(p, s, a);
    case ExitThread(w) => CountsExit(p, s, w);
    case ManagerScan => CountsScan(p, s);
    case ManagerShrinkTest => CountsShrink(p, s);
    case SpuriousWorker(w) => CountsNeutral(p, s, Apply(p, s, a), w, Woken);
    case Produce(_, wake) => CountsNeutral(p, s, Apply(p, s, a), wake, Woken);
    case ManagerSignal(wake) => CountsNeutral(p, s, Apply(p, s, a), wake, Woken);
    case _ => CountsNeutral(p, s, Apply(p, s, a), 0, Woken);
  }

  lemma SlotsNeutral(s: Pool, t: Pool, w: nat, pc: WorkerPc)
    requires SlotsOk(s)
    requires t.core.slots == s.core.slots && t.home == s.home
    requires t.workers == s.workers
      || (w < |s.workers| && t.workers == s.workers[w := pc] && IsPresent(s.workers[w]) == IsPresent(pc))
    ensures SlotsOk(t)
  {
    forall v | 0 <= v < |t.workers| ensures OwnsSlot(t, v) {
      assert OwnsSlot(s, v);
    }
    forall j | 0 <= j < |t.core.slots| ensures HasOwner(t, j) {
      assert HasOwner(s, j);
    }
  }

  /** The one place a slot is released: by the worker it belongs to. */
  lemma ExitClearsHome(p: Params, s: Pool, w: nat)
    requires CoreOk(p, s.core) && Enabled(p, s, ExitThread(w)) && SlotsOk(s)
    ensures s.home[w] < |s.core.slots| && s.core.slots[s.home[w]] == w + 1
    ensures Apply(p, s, ExitThread(w)).core.slots == s.core.slots[s.home[w] := 0]
  {
    assert OwnsSlot(s, w);
    forall j | 0 <= j < |s.core.slots| && s.core.slots[j] == w + 1 ensures j == s.home[w] {
      assert HasOwner(s, j);
    }
    ClearSlotAt(s.core.slots, w + 1, 0, s.home[w]);
  }

  lemma SlotsExit(p: Params, s: Pool, w: nat)
    requires CoreOk(p, s.core) && Enabled(p, s, ExitThread(w)) && SlotsOk(s)
    ensures SlotsOk(Apply(p, s, ExitThread(w)))
  {
    var t := Apply(p, s, ExitThread(w));
    ExitClearsHome(p, s, w);
    forall v | 0 <= v < |t.workers| ensures OwnsSlot(t, v) {
      assert OwnsSlot(s, v);
    }
    forall j | 0 <= j < |t.core.slots| ensures HasOwner(t, j) {
      assert HasOwner(s, j);
    }
  }

  lemma SlotsScan(p: Params, s: Pool)
    requires CoreOk(p, s.core) && s.manager.Scanning? && SlotsOk(s)
    ensures SlotsOk(AfterScan(p, s))
  {
    var t := AfterScan(p, s);
    forall v | 0 <= v < |t.workers| ensures OwnsSlot(t, v) {
      assert v < |s.workers| ==> OwnsSlot(s, v);
    }
    forall j | 0 <= j < |t.core.slots| ensures HasOwner(t, j) {
      assert HasOwner(s, j);
    }
  }

  lemma SlotsWork(p: Params, s: Pool, w: nat, wake: nat, r: (Core, WorkOutcome))
    requires SlotsOk(s) && RingOk(s.core.ring) && w < |s.workers| && IsPresent(s.workers[w])
    requires r == WorkPass(s.core) || r == WakePass(p, s.core)
    ensures SlotsOk(AfterWork(s, w, wake, r))
  {
    hide SlotsOk;
    var t := AfterWork(s, w, wake, r);
    SlotsNeutral(s, t, w, t.workers[w]);
  }

  lemma SlotsManager(p: Params, s: Pool, a: Action)
    requires CoreOk(p, s.core) && Enabled(p, s, a) && ManagerAction(a) && SlotsOk(s)
    ensures SlotsOk(Apply(p, s, a))
  {
    hide SlotsOk;
    if a.ManagerScan? {
      SlotsScan(p, s);
    } else {
      SlotsNeutral(s, Apply(p, s, a), if a.ManagerSignal? then a.wake else 0, Woken);
    }
  }

  lemma SlotsStep(p: Params, s: Pool, a: Action)
    requires CoreOk(p, s.core) && Enabled(p, s, a)
    requires SlotsOk(s)
    ensures SlotsOk(Apply(p, s, a))
  {
    hide SlotsOk;
    var t := Apply(p, s, a);
    match a
    case Work(w, wake) => SlotsWork(p, s, w, wake, WorkPass(s.core));
    case Wake(w, wake) => SlotsWork(p, s, w, wake, WakePass(p, s.core));
    case StartTask(w) => SlotsNeutral(s, t, w, t.workers[w]);
    case FinishTask(w) => SlotsNeutral(s, t, w, t.workers[w]);
    case EndTask(w) => SlotsNeutral(s, t, w, t.workers[w]);
    case SpuriousWorker(w) => SlotsNeutral(s, t, w, Woken);
    case ExitThread(w) => SlotsExit(p, s, w);
    case Produce(_, wake) => SlotsNeutral(s, t, wake, Woken);
    case Submit(_) => SlotsNeutral(s, t, 0, Woken);
    case SpuriousProducer(_) => SlotsNeutral(s, t, 0, Woken);
    case Shutdown => SlotsNeutral(s, t, 0, Woken);
    case _ => SlotsManager(p, s, a);
  }
}
