/** The manager's rounds: what it samples, what it decides from that, whom its signals wake,
    and how the retirement budget it hands out is spent, with any steps of the other threads
    in between. */
module PoolManager {
  import opened Counting
  import opened Division
  import opened PoolCore
  import opened PoolSystem
  import opened PoolCounters
  import opened PoolWakeups
  import opened PoolTheorems

  ghost predicate Step(p: Params, s: Pool, a: Action, t: Pool) {
    CoreOk(p, s.core) && Enabled(p, s, a) && t == Apply(p, s, a)
  }

  /** Any steps of threads other than the manager. */
  ghost predicate Meanwhile(p: Params, s: Pool, acts: seq<Action>, t: Pool) {
    CoreOk(p, s.core) && Runs(p, s, acts, t) && forall a :: a in acts ==> !ManagerAction(a)
  }

  // ---------------------------------------------------------------- decisions

  lemma OthersKeepManager(p: Params, s: Pool, a: Action)
    requires CoreOk(p, s.core) && Enabled(p, s, a) && !ManagerAction(a)
    ensures Apply(p, s, a).manager == s.manager && Apply(p, s, a).shrinks == s.shrinks
  {
    hide AddPass, WorkPass, WakePass;
  }

  lemma {:induction false} MeanwhileKeepsManager(p: Params, s: Pool, acts: seq<Action>, t: Pool)
    requires Meanwhile(p, s, acts, t)
    ensures t.manager == s.manager && t.shrinks == s.shrinks
    decreases acts
  {
    hide Apply, Enabled;
    if acts != [] {
      assert acts[0] in acts && forall a :: a in acts[1..] ==> a in acts;
      OthersKeepManager(p, s, acts[0]);
      MeanwhileKeepsManager(p, Apply(p, s, acts[0]), acts[1..], t);
    }
  }

  /** One round up to its decision to grow: the queue and the live count are read at `q`, the
      busy count at `b`, and the decision falls at `g`. */
  ghost predicate Sampled(p: Params, q: Pool, b: Pool, g: Pool) {
    exists q1, b1, acts1, acts2 ::
      && Step(p, q, ManagerQueue, q1) && Meanwhile(p, q1, acts1, b)
      && Step(p, b, ManagerBusy, b1) && Meanwhile(p, b1, acts2, g)
  }

  /** What the manager carries to its decision is what it saw. */
  lemma SamplesKept(p: Params, q: Pool, b: Pool, g: Pool)
    requires Sampled(p, q, b, g)
    ensures g.manager == SawBusy(q.core.ring.size, q.core.live, b.core.busy) && g.shrinks == q.shrinks
  {
    hide Meanwhile;
    var q1, b1, acts1, acts2 :|
      && Step(p, q, ManagerQueue, q1) && Meanwhile(p, q1, acts1, b)
      && Step(p, b, ManagerBusy, b1) && Meanwhile(p, b1, acts2, g);
    MeanwhileKeepsManager(p, q1, acts1, b);
    MeanwhileKeepsManager(p, b1, acts2, g);
  }

  /** A scan begins in the round exactly if more was queued than alive when the manager
      looked, and not all possible threads were alive. */
  lemma GrowsExactlyIf(p: Params, q: Pool, b: Pool, g: Pool, t: Pool)
    requires Sampled(p, q, b, g) && Step(p, g, ManagerGrowTest, t)
    ensures t.manager.Scanning? <==> q.core.ring.size > q.core.live && q.core.live < p.maxNum
    ensures t.manager.Scanning? ==> t.manager.i == 0 && t.manager.created == 0
    ensures t.core == g.core && t.shrinks == q.shrinks && Carries(t.manager, q.core.live, b.core.busy)
  {
    SamplesKept(p, q, b, g);
  }

  /** The scan, if there is one, with other threads' steps in between. */
  ghost predicate ScanGoesOn(p: Params, s: Pool, acts: seq<Action>, t: Pool) {
    CoreOk(p, s.core) && Runs(p, s, acts, t) && forall a :: a in acts ==> !ManagerAction(a) || a.ManagerScan?
  }

  /** What a manager that scans or is about to test for shrinking carries along. */
  predicate Carries(m: ManagerPc, live: int, busy: int) {
    (m.Scanning? || m.ShrinkTest?) && m.live == live && m.busy == busy
  }

  lemma ScanStepCarries(p: Params, s: Pool, a: Action)
    requires CoreOk(p, s.core) && Enabled(p, s, a) && (!ManagerAction(a) || a.ManagerScan?)
    requires s.manager.Scanning? || s.manager.ShrinkTest?
    ensures Carries(Apply(p, s, a).manager, s.manager.live, s.manager.busy) && Apply(p, s, a).shrinks == s.shrinks
  {
    if !a.ManagerScan? {
      OthersKeepManager(p, s, a);
      hide Apply, Enabled;
    }
  }

  lemma {:induction false} ScanCarries(p: Params, s: Pool, acts: seq<Action>, t: Pool)
    requires ScanGoesOn(p, s, acts, t) && (s.manager.Scanning? || s.manager.ShrinkTest?)
    ensures Carries(t.manager, s.manager.live, s.manager.busy) && t.shrinks == s.shrinks
    decreases acts
  {
    hide Apply, Enabled;
    if acts != [] {
      assert acts[0] in acts && forall a :: a in acts[1..] ==> a in acts;
      ScanStepCarries(p, s, acts[0]);
      ScanCarries(p, Apply(p, s, acts[0]), acts[1..], t);
    }
  }

  /** The round hands out the budget exactly if fewer than half of the threads alive at the
      first look were busy at the second, and more than the minimum were alive. */
  lemma ShrinksExactlyIf(p: Params, q: Pool, b: Pool, g: Pool, g1: Pool, acts: seq<Action>, h: Pool, t: Pool)
    requires Sampled(p, q, b, g) && Step(p, g, ManagerGrowTest, g1)
    requires ScanGoesOn(p, g1, acts, h) && Step(p, h, ManagerShrinkTest, t)
    ensures var shrinks := 2 * b.core.busy < q.core.live && q.core.live > p.minNum;
      && t.shrinks == q.shrinks + Bit(shrinks)
      && t.core == h.core.(exitNum := if shrinks then p.numberE else h.core.exitNum)
      && t.manager == (if shrinks then Signalling(p.numberE) else LoopTest)
  {
    SamplesKept(p, q, b, g);
    hide Sampled, Runs, ScanGoesOn;
    assert Carries(g1.manager, q.core.live, b.core.busy) && g1.shrinks == q.shrinks;
    ScanCarries(p, g1, acts, h);
  }

  // ------------------------------------------------------------------ signals

  predicate IsSleeping(pc: WorkerPc) { pc.Sleeping? }

  /** A signal moves one sleeper, if there is one, out of its wait, and nobody else. */
  lemma SignalMovesOne(p: Params, s: Pool, wake: nat, t: Pool)
    requires Step(p, s, ManagerSignal(wake), t) && s.manager.left > 0
    ensures t.manager == Signalling(s.manager.left - 1) && t.core == s.core && |t.workers| == |s.workers|
    ensures SomeoneSleeps(s.workers) ==>
      exists w :: 0 <= w < |s.workers| && s.workers[w].Sleeping? && t.workers == s.workers[w := Woken]
    ensures !SomeoneSleeps(s.workers) ==> t.workers == s.workers
    ensures Count(t.workers, IsSleeping) + Bit(Count(s.workers, IsSleeping) > 0) == Count(s.workers, IsSleeping)
    ensures Count(t.workers, IsWoken) == Count(s.workers, IsWoken) + Bit(Count(s.workers, IsSleeping) > 0)
  {
    hide Count;
    if SomeoneSleeps(s.workers) {
      assert s.workers[wake].Sleeping? && t.workers == s.workers[wake := Woken];
      CountPositive(s.workers, wake, IsSleeping);
      CountUpdate(s.workers, wake, Woken, IsSleeping);
      CountUpdate(s.workers, wake, Woken, IsWoken);
    } else {
      CountNone(s.workers, IsSleeping);
    }
  }

  function Signals(acts: seq<Action>): nat {
    if acts == [] then 0 else Bit(acts[0].ManagerSignal?) + Signals(acts[1..])
  }

  lemma SignalCounted(p: Params, s: Pool, a: Action)
    requires CoreOk(p, s.core) && Enabled(p, s, a) && s.manager.Signalling?
    ensures var m := Apply(p, s, a).manager;
      if !a.ManagerSignal? then m == s.manager
      else if s.manager.left == 0 then m == LoopTest else m == Signalling(s.manager.left - 1)
  {
    if !a.ManagerSignal? {
      OthersKeepManager(p, s, a);
      hide Apply, Enabled;
    }
  }

  /** The signals of a decision are counted out whatever the others do: until its next loop
      test the manager sends those it has left, and one step more ends the round. */
  lemma {:induction false} SignalsCounted(p: Params, s: Pool, acts: seq<Action>, t: Pool)
    requires CoreOk(p, s.core) && Runs(p, s, acts, t) && s.manager.Signalling?
    requires forall a :: a in acts ==> !a.ManagerTest?
    ensures Signals(acts) <= s.manager.left + 1
    ensures t.manager
      == if Signals(acts) <= s.manager.left then Signalling(s.manager.left - Signals(acts)) else LoopTest
    decreases acts
  {
    hide Apply, Enabled, ManagerAction;
    if acts != [] {
      assert acts[0] in acts && forall a :: a in acts[1..] ==> a in acts;
      var u := Apply(p, s, acts[0]);
      SignalCounted(p, s, acts[0]);
      if u.manager.Signalling? {
        SignalsCounted(p, u, acts[1..], t);
      } else {
        NoSignalAtTest(p, u, acts[1..], t);
      }
    }
  }

  /** A manager before its loop test sends no signal. */
  lemma {:induction false} NoSignalAtTest(p: Params, s: Pool, acts: seq<Action>, t: Pool)
    requires CoreOk(p, s.core) && Runs(p, s, acts, t) && s.manager == LoopTest
    requires forall a :: a in acts ==> !a.ManagerTest?
    ensures t.manager == LoopTest && Signals(acts) == 0
    decreases acts
  {
    hide Apply;
    if acts != [] {
      assert acts[0] in acts && forall a :: a in acts[1..] ==> a in acts;
      OthersKeepManager(p, s, acts[0]);
      hide Enabled;
      NoSignalAtTest(p, Apply(p, s, acts[0]), acts[1..], t);
    }
  }

  /** With nobody else moving, the signals of a decision wake min(NUMBERE, sleepers). */
  lemma {:induction false} SignalsWake(p: Params, s: Pool, acts: seq<Action>, t: Pool)
    requires CoreOk(p, s.core) && Runs(p, s, acts, t) && s.manager.Signalling?
    requires (forall a :: a in acts ==> a.ManagerSignal?) && t.manager == LoopTest
    ensures Count(t.workers, IsWoken)
      == Count(s.workers, IsWoken) + Min(s.manager.left, Count(s.workers, IsSleeping))
    ensures t.core == s.core && |t.workers| == |s.workers|
    decreases acts
  {
    hide Count, Apply, Enabled;
    assert acts[0] in acts && forall a :: a in acts[1..] ==> a in acts;
    var u := Apply(p, s, acts[0]);
    if s.manager.left > 0 {
      SignalMovesOne(p, s, acts[0].wake, u);
      SignalsWake(p, u, acts[1..], t);
    } else {
      LastSignal(p, s, acts[0]);
      if acts[1..] != [] {
        assert acts[1] in acts;
        NoSignalEnabled(p, u, acts[1]);
      }
    }
  }

  lemma LastSignal(p: Params, s: Pool, a: Action)
    requires CoreOk(p, s.core) && Enabled(p, s, a) && a.ManagerSignal? && s.manager.left == 0
    ensures Apply(p, s, a) == s.(manager := LoopTest)
  {
  }

  lemma NoSignalEnabled(p: Params, s: Pool, a: Action)
    requires s.manager == LoopTest && a.ManagerSignal?
    ensures !Enabled(p, s, a)
  {
  }

  // ------------------------------------------------------------------- budget

  function Wakes(acts: seq<Action>): nat {
    if acts == [] then 0 else Bit(acts[0].Wake?) + Wakes(acts[1..])
  }

  function AtLeast0(x: int): int {
    if x < 0 then 0 else x
  }

  /** Between shrink decisions the budget changes only by returns from the wait, one unit each. */
  lemma BudgetStep(p: Params, s: Pool, a: Action)
    requires CoreOk(p, s.core) && Enabled(p, s, a) && s.core.exitNum >= 0 && !a.ManagerShrinkTest?
    ensures Apply(p, s, a).core.exitNum == AtLeast0(s.core.exitNum - Bit(a.Wake?))
  {
  }

  /** Over every run without a shrink decision the budget falls by one for every return from
      the wait until it is gone, whether or not those threads retire. */
  lemma {:induction false} BudgetSpent(p: Params, s: Pool, acts: seq<Action>, t: Pool)
    requires CoreOk(p, s.core) && Runs(p, s, acts, t) && s.core.exitNum >= 0
    requires forall a :: a in acts ==> !a.ManagerShrinkTest?
    ensures t.core.exitNum == AtLeast0(s.core.exitNum - Wakes(acts))
    decreases acts
  {
    hide Apply, Enabled;
    if acts != [] {
      assert acts[0] in acts && forall a :: a in acts[1..] ==> a in acts;
      BudgetStep(p, s, acts[0]);
      BudgetSpent(p, Apply(p, s, acts[0]), acts[1..], t);
    }
  }

  /** Only a return from the wait can retire a thread. */
  lemma RetireStep(p: Params, s: Pool, a: Action)
    requires CoreOk(p, s.core) && Enabled(p, s, a) && s.core.exitNum >= 0
    ensures var t := Apply(p, s, a);
      Count(t.workers, IsRetired) == Count(s.workers, IsRetired)
        + Bit(a.Wake? && s.core.exitNum > 0 && s.core.live > p.minNum)
  {
    match a
    case Work(w, wake) => RetirePass(p, s, w, wake, WorkPass(s.core));
    case Wake(w, wake) => RetirePass(p, s, w, wake, WakePass(p, s.core));
    case ManagerScan => Created(s.workers);
    case _ => RetireNeutral(p, s, a);
  }

  lemma RetirePass(p: Params, s: Pool, w: nat, wake: nat, r: (Core, WorkOutcome))
    requires RingOk(s.core.ring) && w < |s.workers| && (s.workers[w].AtLock? || s.workers[w].Woken?)
    requires r == WorkPass(s.core) || r == WakePass(p, s.core)
    ensures Count(AfterWork(s, w, wake, r).workers, IsRetired) == Count(s.workers, IsRetired) + Bit(r.1.WorkRetires?)
  {
    hide Count;
    CountUpdate(s.workers, w, AfterWork(s, w, wake, r).workers[w], IsRetired);
  }

  lemma RetireNeutral(p: Params, s: Pool, a: Action)
    requires CoreOk(p, s.core) && Enabled(p, s, a) && !a.Work? && !a.Wake? && !a.ManagerScan?
    ensures Count(Apply(p, s, a).workers, IsRetired) == Count(s.workers, IsRetired)
  {
    hide Count, AddPass;
    var t := Apply(p, s, a);
    var w := if a.Produce? || a.ManagerSignal? then a.wake
      else if a.StartTask? || a.FinishTask? || a.EndTask? || a.ExitThread? || a.SpuriousWorker? then a.w else 0;
    if w < |s.workers| && t.workers != s.workers {
      CountUpdate(s.workers, w, t.workers[w], IsRetired);
    }
  }

  predicate Waits(ws: seq<WorkerPc>, w: nat) {
    w < |ws| && (ws[w].Sleeping? || ws[w].Woken?)
  }

  predicate Sleeps(ws: seq<WorkerPc>, w: nat) {
    w < |ws| && ws[w].Sleeping?
  }

  /** How often thread w goes to sleep in a run, having the lock. */
  ghost function Naps(p: Params, s: Pool, acts: seq<Action>, w: nat): nat
    requires CoreOk(p, s.core)
    decreases acts
  {
    if acts == [] || !Enabled(p, s, acts[0]) then 0
    else
      var a, t := acts[0], Apply(p, s, acts[0]);
      Bit((a.Work? || a.Wake?) && a.w == w && Sleeps(t.workers, w)) + Naps(p, t, acts[1..], w)
  }

  function WakesOf(w: nat, acts: seq<Action>): nat {
    if acts == [] then 0 else Bit(acts[0].Wake? && acts[0].w == w) + WakesOf(w, acts[1..])
  }

  lemma NapStep(p: Params, s: Pool, a: Action, w: nat)
    requires CoreOk(p, s.core) && Enabled(p, s, a)
    ensures var t := Apply(p, s, a);
      Bit(Waits(s.workers, w)) + Bit((a.Work? || a.Wake?) && a.w == w && Sleeps(t.workers, w))
        == Bit(Waits(t.workers, w)) + Bit(a.Wake? && a.w == w)
  {
    hide AddPass, ClearSlot, WakePass, WorkPass, AfterWork;
    match a
    case Work(_, wake) => NapPass(p, s, a.w, wake, WorkPass(s.core), w);
    case Wake(_, wake) => NapPass(p, s, a.w, wake, WakePass(p, s.core), w);
    case _ => NobodyNaps(p, s, a, w);
  }

  lemma NapPass(p: Params, s: Pool, v: nat, wake: nat, r: (Core, WorkOutcome), w: nat)
    requires v < |s.workers|
    ensures var t := AfterWork(s, v, wake, r);
      Bit(Waits(t.workers, w)) == if v == w then Bit(Sleeps(t.workers, w)) else Bit(Waits(s.workers, w))
  {
  }

  lemma NobodyNaps(p: Params, s: Pool, a: Action, w: nat)
    requires CoreOk(p, s.core) && Enabled(p, s, a) && !a.Work? && !a.Wake?
    ensures Waits(Apply(p, s, a).workers, w) == Waits(s.workers, w)
  {
    hide AddPass, ClearSlot;
  }

  /** A thread returns from the wait, and so can spend budget, only as often as it has gone
      into it: in every run its returns are the times it went to sleep, but for a wait that
      was under way at the start or is at the end. */
  lemma {:induction false} WakesAreNaps(p: Params, s: Pool, acts: seq<Action>, t: Pool, w: nat)
    requires CoreOk(p, s.core) && Runs(p, s, acts, t)
    ensures Bit(Waits(s.workers, w)) + Naps(p, s, acts, w) == Bit(Waits(t.workers, w)) + WakesOf(w, acts)
    decreases acts
  {
    hide Apply, Enabled, Waits, Sleeps;
    if acts != [] {
      NapStep(p, s, acts[0], w);
      WakesAreNaps(p, Apply(p, s, acts[0]), acts[1..], t, w);
    }
  }

  /** Nobody is created waiting: after any run from the pool's creation every return of a
      thread, and a wait still under way, is one of the times it went to sleep. */
  lemma EveryWakeWasANap(p: Params, cells: seq<Task>, acts: seq<Action>, t: Pool, w: nat)
    requires ValidParams(p) && |cells| == p.capacity && Runs(p, Start(p, cells), acts, t)
    ensures WakesOf(w, acts) + Bit(Waits(t.workers, w)) == Naps(p, Start(p, cells), acts, w)
  {
    WakesAreNaps(p, Start(p, cells), acts, t, w);
  }

  /** How many of `n` returns from the wait retire, given the budget and the threads above the
      minimum. */
  function Retiring(n: nat, budget: int, spare: int): nat {
    if budget <= 0 || spare <= 0 then 0 else Min(n, Min(budget, spare))
  }

  /** Over every run without a shrink decision at most as many threads retire as there are
      returns from the wait and budget, whatever the manager adds meanwhile; exactly the
      smallest of returns, budget and threads above the minimum, if it adds none. */
  lemma {:induction false} RetirementsExact(p: Params, s: Pool, acts: seq<Action>, t: Pool)
    requires CoreOk(p, s.core) && Runs(p, s, acts, t) && s.core.exitNum >= 0 && s.core.live >= p.minNum
    requires forall a :: a in acts ==> !a.ManagerShrinkTest?
    ensures Count(s.workers, IsRetired) <= Count(t.workers, IsRetired)
    ensures Count(t.workers, IsRetired) <= Count(s.workers, IsRetired) + Min(Wakes(acts), s.core.exitNum)
    ensures (forall a :: a in acts ==> !a.ManagerScan?) ==>
      Count(t.workers, IsRetired)
        == Count(s.workers, IsRetired) + Retiring(Wakes(acts), s.core.exitNum, s.core.live - p.minNum)
    decreases acts
  {
    hide Apply, Enabled, Count;
    if acts != [] {
      assert acts[0] in acts && forall a :: a in acts[1..] ==> a in acts;
      var u := Apply(p, s, acts[0]);
      BudgetStep(p, s, acts[0]);
      LiveStep(p, s, acts[0]);
      RetireStep(p, s, acts[0]);
      RetirementsExact(p, u, acts[1..], t);
    }
  }

  lemma LiveStep(p: Params, s: Pool, a: Action)
    requires CoreOk(p, s.core) && Enabled(p, s, a) && s.core.exitNum >= 0 && s.core.live >= p.minNum
    ensures var t, retires := Apply(p, s, a), a.Wake? && s.core.exitNum > 0 && s.core.live > p.minNum;
      && t.core.live >= p.minNum
      && (!a.ManagerScan? ==> t.core.live == s.core.live - Bit(retires))
  {
    hide ClearSlot;
  }

  /** After a shrink decision only the first NUMBERE returns from the wait can retire: from
      any reachable state, once there have been that many, nobody retires until the next
      decision. */
  lemma OnlyFirstWakesRetire(p: Params, s: Pool, acts: seq<Action>, t: Pool, more: seq<Action>, u: Pool)
    requires ValidParams(p) && Reachable(p, s) && CoreOk(p, s.core) && CoreOk(p, t.core)
    requires Runs(p, s, acts, t) && Runs(p, t, more, u)
    requires forall a :: a in acts ==> !a.ManagerShrinkTest?
    requires forall a :: a in more ==> !a.ManagerShrinkTest?
    requires Wakes(acts) >= p.numberE
    ensures Count(u.workers, IsRetired) == Count(t.workers, IsRetired)
  {
    hide Runs, Count, Reachable, Wakes, CoreOk;
    ElasticBounds(p, s);
    BudgetSpent(p, s, acts, t);
    KeepsMinimum(p, s, acts, t);
    RetirementsExact(p, t, more, u);
  }

  lemma {:induction false} KeepsMinimum(p: Params, s: Pool, acts: seq<Action>, t: Pool)
    requires CoreOk(p, s.core) && Runs(p, s, acts, t) && s.core.exitNum >= 0 && s.core.live >= p.minNum
    requires forall a :: a in acts ==> !a.ManagerShrinkTest?
    ensures t.core.live >= p.minNum
    decreases acts
  {
    hide Apply, Enabled;
    if acts != [] {
      assert acts[0] in acts && forall a :: a in acts[1..] ==> a in acts;
      BudgetStep(p, s, acts[0]);
      LiveStep(p, s, acts[0]);
      KeepsMinimum(p, Apply(p, s, acts[0]), acts[1..], t);
    }
  }
}
