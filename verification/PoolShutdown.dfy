/** What the pool does once the shutdown flag is set. */
module PoolShutdown {
  import opened Counting
  import opened PoolCore
  import opened PoolSystem
  import opened PoolCounters
  import opened PoolTasks
  import opened PoolTheorems

  lemma FreezeStep(p: Params, s: Pool, a: Action)
    requires CoreOk(p, s.core) && Enabled(p, s, a) && s.core.shutdown
    ensures var t := Apply(p, s, a);
      && t.core.shutdown && t.core.ring == s.core.ring && t.accepted == s.accepted && t.dequeued == s.dequeued
      && (s.manager.LoopTest? || s.manager.Stopped? ==> t.manager.LoopTest? || t.manager.Stopped?)
  {
    hide ClearSlot, Put, Take;
  }

  /** After the flag is set, in every run, no task is accepted or started any more, and a
      manager that has come to its loop test begins no other round. */
  lemma {:induction false} ShutdownFreezes(p: Params, s: Pool, acts: seq<Action>, t: Pool)
    requires CoreOk(p, s.core) && Runs(p, s, acts, t) && s.core.shutdown
    ensures t.core.shutdown && t.core.ring == s.core.ring && t.accepted == s.accepted && t.dequeued == s.dequeued
    ensures s.manager.LoopTest? || s.manager.Stopped? ==> t.manager.LoopTest? || t.manager.Stopped?
    decreases acts
  {
    hide Apply, Enabled;
    if acts != [] {
      FreezeStep(p, s, acts[0]);
      ShutdownFreezes(p, Apply(p, s, acts[0]), acts[1..], t);
    }
  }

  /** Where the workers come to rest after that, each has left or sleeps, nobody is busy, and
      every task taken out of the queue is done. */
  lemma RestAfterShutdown(p: Params, s: Pool)
    requires ValidParams(p) && Reachable(p, s) && LockFree(s) && AtRest(p, s)
    ensures forall w :: 0 <= w < |s.workers| ==> s.workers[w].Sleeping? || s.workers[w].Gone?
    ensures s.core.busy == 0
    ensures forall k :: 0 <= k < |s.dequeued| ==> k in s.done
  {
    ReachableInv(p, s);
    WorkersLeave(p, s);
    hide AtRest, Reachable, SlotsOk, BoundsOk;
    CountNone(s.workers, IsBusy);
    forall k | 0 <= k < |s.dequeued| ensures k in s.done {
      assert TicketOk(s, k);
    }
  }

  lemma WorkersLeave(p: Params, s: Pool)
    requires LockFree(s) && AtRest(p, s)
    ensures forall w :: 0 <= w < |s.workers| ==> s.workers[w].Sleeping? || s.workers[w].Gone?
  {
    var wake := FreeTarget(s.producers);
    forall w | 0 <= w < |s.workers| ensures s.workers[w].Sleeping? || s.workers[w].Gone? {
      assert !Enabled(p, s, Action.Work(w, wake)) && !Enabled(p, s, Wake(w, wake));
      assert !Enabled(p, s, StartTask(w)) && !Enabled(p, s, FinishTask(w));
      assert !Enabled(p, s, EndTask(w)) && !Enabled(p, s, ExitThread(w));
    }
  }
}
