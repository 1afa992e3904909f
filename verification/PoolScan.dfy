/** How much the pool grows in one decision of the manager.  The scan holds mutexPool,
    but a thread in threadExit takes no lock, so slots may be freed while it runs. */
module PoolScan {
  import opened Counting
  import opened Division
  import opened PoolCore
  import opened PoolSystem
  import opened PoolCounters
  import opened PoolTasks
  import opened PoolWakeups
  import opened PoolTheorems

  // ------------------------------------------------------------- undisturbed

  /** The threads there were stay where they are; the new ones are about to take the lock. */
  predicate Joined(ws: seq<WorkerPc>, more: seq<WorkerPc>) {
    |ws| <= |more| && forall w :: 0 <= w < |more| ==> more[w] == if w < |ws| then ws[w] else AtLock
  }

  /** One step of the scan, in terms of `GrowScan`. */
  lemma ScanOnce(p: Params, s: Pool)
    requires CoreOk(p, s.core) && s.manager.Scanning?
    ensures Enabled(p, s, ManagerScan) && Apply(p, s, ManagerScan) == AfterScan(p, s)
    ensures var m, u := s.manager, AfterScan(p, s);
      var r := GrowScan(p, s.core.slots, s.core.live, m.i, m.created, |s.workers| + 1);
      && u == s.(core := s.core.(slots := u.core.slots, live := u.core.live),
                 workers := u.workers, home := u.home, manager := u.manager)
      && Joined(s.workers, u.workers)
      && if u.manager.Scanning? then
           && m.i < |s.core.slots| == |u.core.slots| && u.manager.i == m.i + 1
           && u.manager.live == m.live && u.manager.busy == m.busy
           && r == GrowScan(p, u.core.slots, u.core.live, m.i + 1, u.manager.created, |u.workers| + 1)
           && u.core.live - s.core.live == |u.workers| - |s.workers| == u.manager.created - m.created
         else
           u == s.(manager := ShrinkTest(m.live, m.busy)) && r == (s.core.slots, m.created)
  {
  }

  /** From wherever it stands, the manager's own steps take the scan to its end, and they
      amount to `GrowScan`. */
  lemma {:induction false} ScanThrough(p: Params, s: Pool) returns (acts: seq<Action>, t: Pool)
    requires CoreOk(p, s.core) && s.manager.Scanning?
    ensures Runs(p, s, acts, t) && forall a :: a in acts ==> a == ManagerScan
    ensures var r := GrowScan(p, s.core.slots, s.core.live, s.manager.i, s.manager.created, |s.workers| + 1);
      var made := r.1 - s.manager.created;
      && t == s.(core := s.core.(slots := r.0, live := s.core.live + made),
                 workers := t.workers, home := t.home, manager := ShrinkTest(s.manager.live, s.manager.busy))
      && |t.workers| == |s.workers| + made && Joined(s.workers, t.workers)
    decreases |s.core.slots| - s.manager.i
  {
    hide Enabled, Apply, AfterScan, GrowScan;
    ScanOnce(p, s);
    var u := AfterScan(p, s);
    if u.manager.Scanning? {
      var rest;
      rest, t := ScanThrough(p, u);
      acts := [ManagerScan] + rest;
      assert acts[1..] == rest;
    } else {
      t := u;
      acts := [ManagerScan];
      assert acts[1..] == [];
    }
  }

  ghost predicate ScanBegins(p: Params, s: Pool)
    requires ValidParams(p)
  {
    Reachable(p, s) && !s.core.shutdown && s.manager.Scanning? && s.manager.i == 0 && s.manager.created == 0
  }

  /** Left alone, a scan begun in any reachable state makes min(NUMBERE, vacant slots) threads. */
  lemma GrowthUndisturbed(p: Params, s: Pool) returns (acts: seq<Action>, t: Pool)
    requires ValidParams(p) && ScanBegins(p, s)
    ensures CoreOk(p, s.core) && Runs(p, s, acts, t) && t.manager.ShrinkTest?
    ensures |t.workers| == |s.workers| + Min(p.numberE, Count(s.core.slots, Vacant))
    ensures t.core.live == s.core.live + Min(p.numberE, Count(s.core.slots, Vacant)) <= p.maxNum
  {
    TasksConserved(p, s);
    GrowFromReachable(p, s);
    acts, t := ScanThrough(p, s);
  }

  // --------------------------------------------------------------- disturbed

  /** All of `acts` happen before the scan is over. */
  ghost predicate WhileScanning(p: Params, s: Pool, acts: seq<Action>)
    requires CoreOk(p, s.core)
    decreases acts
  {
    acts != [] ==>
      s.manager.Scanning? && Enabled(p, s, acts[0]) && WhileScanning(p, Apply(p, s, acts[0]), acts[1..])
  }

  function Exits(acts: seq<Action>): nat {
    if acts == [] then 0 else Bit(acts[0].ExitThread?) + Exits(acts[1..])
  }

  ghost predicate NobodyQuits(s: Pool) {
    forall w :: 0 <= w < |s.workers| ==> !QuitsOnShutdown(s.workers[w])
  }

  /** The slots the scan has yet to look at and would find vacant. */
  function Ahead(s: Pool): nat
    requires s.manager.Scanning?
  {
    if s.manager.i <= |s.core.slots| then Count(s.core.slots[s.manager.i..], Vacant) else 0
  }

  /** What other threads may do meanwhile: a leaving one frees a slot, the rest is of no concern. */
  lemma OthersMeanwhile(p: Params, s: Pool, a: Action)
    requires CoreOk(p, s.core) && Enabled(p, s, a) && s.manager.Scanning? && !a.ManagerScan? && !a.ExitThread?
    ensures var t := Apply(p, s, a);
      && t.manager == s.manager && |t.workers| == |s.workers| && Ahead(t) == Ahead(s)
      && (NobodyQuits(s) ==> NobodyQuits(t))
  {
  }

  lemma ExitMeanwhile(p: Params, s: Pool, w: nat)
    requires CoreOk(p, s.core) && Enabled(p, s, ExitThread(w)) && s.manager.Scanning? && SlotsOk(s)
    ensures var t := Apply(p, s, ExitThread(w));
      && t.manager == s.manager && |t.workers| == |s.workers|
      && (NobodyQuits(s) ==> NobodyQuits(t))
      && Ahead(s) <= Ahead(t) <= Ahead(s) + 1
  {
    ExitClearsHome(p, s, w);
    var i, home, slots := s.manager.i, s.home[w], s.core.slots;
    if i <= home {
      assert slots[home := 0][i..] == slots[i..][home - i := 0];
      CountUpdate<nat>(slots[i..], home - i, 0, Vacant);
    } else if i <= |slots| {
      assert slots[home := 0][i..] == slots[i..];
    }
  }

  /** With nobody quitting, every live thread still owns a slot. */
  lemma LiveOwnSlots(p: Params, s: Pool)
    requires ValidParams(p) && Inv(p, s) && NobodyQuits(s)
    ensures s.core.live <= Count(s.core.slots, Occupied) && |s.core.slots| == p.maxNum
    ensures s.manager.Scanning? ==> s.manager.i <= p.maxNum && s.manager.created <= p.numberE
  {
    hide TasksOk, NotEmptyOk, NotFullOk, SlotsOk;
    CountSum(s.workers, IsCharged, IsRetiring, IsPresent);
    CountSum(s.workers, IsRetired, IsCharged, IsAny);
    CountAll(s.workers, IsAny);
  }

  /** The scan stops only out of budget or with nothing vacant ahead. */
  lemma NothingAhead(p: Params, s: Pool)
    requires ValidParams(p) && Inv(p, s) && NobodyQuits(s) && s.manager.Scanning?
    requires !GrowContinues(p, s.core.slots, s.core.live, s.manager.i, s.manager.created)
    ensures s.manager.created == p.numberE || Ahead(s) == 0
  {
    LiveOwnSlots(p, s);
    hide Inv, NobodyQuits;
    var slots, i := s.core.slots, s.manager.i;
    CountSum(slots, Occupied, Vacant, AnyId);
    CountAll(slots, AnyId);
    CountSuffix(slots, i, Vacant);
  }

  lemma {:induction false} CountSuffix<T>(s: seq<T>, i: nat, p: T -> bool)
    requires i <= |s|
    ensures Count(s[i..], p) <= Count(s, p)
  {
    if i > 0 {
      assert s[i..] == s[1..][i - 1..];
      CountSuffix(s[1..], i - 1, p);
    } else {
      assert s[0..] == s;
    }
  }

  lemma ScanMeanwhile(p: Params, s: Pool)
    requires CoreOk(p, s.core) && s.manager.Scanning?
    requires GrowContinues(p, s.core.slots, s.core.live, s.manager.i, s.manager.created)
    ensures var t, vacant := AfterScan(p, s), Bit(s.core.slots[s.manager.i] == 0);
      && t.manager == s.manager.(i := s.manager.i + 1, created := s.manager.created + vacant)
      && |t.workers| == |s.workers| + vacant && (NobodyQuits(s) ==> NobodyQuits(t))
      && Ahead(s) == Ahead(t) + vacant
  {
    var slots, i, t := s.core.slots, s.manager.i, AfterScan(p, s);
    assert slots[i..][0] == slots[i] && slots[i..][1..] == slots[i + 1..];
    assert t.core.slots[i + 1..] == slots[i + 1..];
  }

  lemma ScanEnds(p: Params, s: Pool)
    requires CoreOk(p, s.core) && s.manager.Scanning?
    requires !GrowContinues(p, s.core.slots, s.core.live, s.manager.i, s.manager.created)
    ensures !AfterScan(p, s).manager.Scanning? && AfterScan(p, s).workers == s.workers
  {
  }

  lemma {:induction false} ScanBounds(p: Params, s: Pool, acts: seq<Action>, t: Pool)
    requires ValidParams(p) && CoreOk(p, s.core) && Inv(p, s) && NobodyQuits(s) && s.manager.Scanning?
    requires WhileScanning(p, s, acts) && Runs(p, s, acts, t) && !t.manager.Scanning?
    ensures var made, budget := |t.workers| - |s.workers|, p.numberE - s.manager.created;
      budget >= 0 && Min(budget, Ahead(s)) <= made <= Min(budget, Ahead(s) + Exits(acts))
    decreases acts
  {
    hide Inv, NobodyQuits, Ahead, Enabled, Apply, AfterScan, GrowContinues, GrowScan, CoreOk;
    var a, u := acts[0], Apply(p, s, acts[0]);
    LiveOwnSlots(p, s);
    InvStep(p, s, a);
    if a.ManagerScan? {
      ScanOnce(p, s);
      if GrowContinues(p, s.core.slots, s.core.live, s.manager.i, s.manager.created) {
        ScanMeanwhile(p, s);
        ScanBounds(p, u, acts[1..], t);
      } else {
        NothingAhead(p, s);
        ScanEnds(p, s);
        assert acts[1..] == [];
      }
    } else {
      if a.ExitThread? {
        SlotsOfInv(p, s);
        ExitMeanwhile(p, s, a.w);
      } else {
        OthersMeanwhile(p, s, a);
      }
      ScanBounds(p, u, acts[1..], t);
    }
  }

  lemma SlotsOfInv(p: Params, s: Pool)
    requires ValidParams(p) && Inv(p, s)
    ensures SlotsOk(s)
  {
  }

  /** Whatever the other threads do meanwhile, a scan begun in any reachable state makes at
      least min(NUMBERE, slots vacant at its start) threads, and more only for slots that
      leaving threads have freed; so exactly that many if none leaves. */
  lemma GrowthDisturbed(p: Params, s: Pool, acts: seq<Action>, t: Pool)
    requires ValidParams(p) && ScanBegins(p, s) && CoreOk(p, s.core)
    requires Runs(p, s, acts, t) && WhileScanning(p, s, acts) && !t.manager.Scanning?
    ensures var made, vacant := |t.workers| - |s.workers|, Count(s.core.slots, Vacant);
      && Min(p.numberE, vacant) <= made <= Min(p.numberE, vacant + Exits(acts))
      && (Exits(acts) == 0 ==> made == Min(p.numberE, vacant))
      && t.core.live <= p.maxNum
  {
    hide Inv, WhileScanning, Runs, NobodyQuits;
    ReachableInv(p, s);
    InvRuns(p, s, acts, t);
    NoQuitters(p, s);
    LiveBounded(p, t);
    assert s.core.slots[0..] == s.core.slots;
    ScanBounds(p, s, acts, t);
  }

  lemma NoQuitters(p: Params, s: Pool)
    requires ValidParams(p) && Inv(p, s) && !s.core.shutdown
    ensures NobodyQuits(s)
  {
  }

  lemma LiveBounded(p: Params, s: Pool)
    requires ValidParams(p) && Inv(p, s)
    ensures s.core.live <= p.maxNum
  {
  }
}
