/** A transfer never wedges, with any number of blocks and however few slots: there is
    always a thread whose next steps bring the end nearer whatever the others do. */
module TransferProgress {
  import opened Division
  import opened Blocks
  import opened TransferSystem
  import opened TransferHandoff
  import opened TransferMatching
  import opened TransferData
  import opened TransferTheorems
  import opened TransferMeasure
  import opened TransferSearch

  /** The relay's first receive waits for a full buffer or the end of the stream. */
  predicate WaitsForAll(c: Config, s: Transfer, a: Action) {
    a.RelayRecv? && a.i < |s.senders| && a.i < |s.wires| ==>
      a.n == c.relayBuf || (s.senders[a.i].Closed? && a.n == |s.wires[a.i]|)
  }

  /** `who` can take a step in the original as well, where that receive is not cut short.
      A relay that still waits for its buffer to fill cannot. */
  ghost predicate CanStep(c: Config, s: Transfer, who: Who) {
    exists a :: Enabled(c, s, a) && WaitsForAll(c, s, a) && Actor(a) == who
  }

  // ------------------------------------------------------------ who can help

  /** The step that `who` would take, receiving all it can. */
  function NextStep(c: Config, s: Transfer, who: Who): Action {
    match who
    case Sending(i) => if i < |s.senders| && s.senders[i].Ready? then Connect(i) else Write(i)
    case Relaying(i) =>
      var wire := if i < |s.wires| then |s.wires[i]| else 0;
      if i >= |s.relays| || s.relays[i].Header? then Announce(i)
      else if s.relays[i].Scanning? then Scan(i)
      else if s.relays[i].Reading? then RelayRecv(i, Min(c.relayBuf, wire))
      else RelayTail(i, wire)
    case MessageLoop =>
      (match s.main
       case Listening => MainRecv
       case Got(_) => MainWait
       case Copying(_) => MainCopy
       case Posting => MainPost
       case Spawning => MainSpawn)
    case Thread(k) =>
      if k >= |s.threads| then ThreadWait(k)
      else (match s.threads[k].pc
            case Waiting => ThreadWait(k)
            case Taking => ThreadCopy(k)
            case Giving => ThreadPost(k)
            case Connecting => ThreadConnect(k)
            case _ => Receive(k, Min(c.recvBuf, |s.threads[k].wire|)))
    case Parking(k) => ParkStep(k)
  }

  ghost predicate TableFree(s: Transfer) {
    forall j :: 0 <= j < |s.slots| ==> !s.slots[j].used
  }

  /** `who` is `d` fruitless looks away from a fruitful step, and nothing but a fruitful
      step of another thread can change that. */
  ghost predicate Helps(c: Config, s: Transfer, who: Who, d: nat) {
    && Enabled(c, s, NextStep(c, s, who))
    && match who
       case Relaying(i) =>
         if i < |s.relays| && s.relays[i].Scanning? then exists j :: SeeksSlot(c, s, i, j, d)
         else d == 0 && (i < |s.relays| && s.relays[i].Reading? ==> i < |s.senders| && s.senders[i].Closed?)
       case Parking(_) => d == 0 && TableFree(s)
       case _ => d == 0
  }

  lemma HelperSteps(c: Config, s: Transfer, who: Who, d: nat)
    requires Helps(c, s, who, d)
    ensures CanStep(c, s, who)
  {
    assert Actor(NextStep(c, s, who)) == who;
  }

  lemma OnlyLookedEnabled(c: Config, s: Transfer, t: Transfer, who: Who)
    requires ValidConfig(c) && Inv(c, t) && OnlyLooked(s, t) && Enabled(c, s, NextStep(c, s, who))
    ensures Enabled(c, t, NextStep(c, t, who))
  {
    hide Split, AnnouncedOk, HandoffOk, WiresOk, MappingOk;
    match who
    case Relaying(i) =>
      assert RelayMatch(t, i);
      hide Inv;
    case Parking(k) =>
      assert ThreadMatch(c, t, k);
      hide Inv;
    case _ => hide Inv;
  }

  /** After a fruitless look the helper still helps, and if it was its own it is nearer. */
  lemma HelpsOn(c: Config, s: Transfer, a: Action, who: Who, d: nat)
    requires ValidConfig(c) && Inv(c, s) && Enabled(c, s, a) && Fruitless(c, s, a) && Helps(c, s, who, d)
    ensures Actor(a) == who ==> d > 0
    ensures Helps(c, Apply(c, s, a), who, if Actor(a) == who then d - 1 else d)
  {
    hide Inv, Apply, Enabled, NextStep, Left;
    var t := Apply(c, s, a);
    LookKeeps(c, s, a);
    InvStep(c, s, a);
    OnlyLookedEnabled(c, s, t, who);
    if who.Relaying? && who.i < |s.relays| && s.relays[who.i].Scanning? {
      var j :| SeeksSlot(c, s, who.i, j, d);
      if Actor(a) == who {
        ScansAreSteps(c, s, a, who.i);
        FruitlessScan(c, s, who.i, j, d);
        OwnScan(c, s, who.i, j, d);
      } else {
        OthersScan(c, s, a, who.i, j, d);
      }
    }
  }

  lemma FruitlessScan(c: Config, s: Transfer, i: nat, j: nat, d: nat)
    requires Fruitless(c, s, Scan(i)) && SeeksSlot(c, s, i, j, d)
    ensures d > 0
  {
  }

  /** At some point of the run `who` cannot take a step. */
  ghost predicate Stalls(c: Config, s: Transfer, acts: seq<Action>, who: Who)
    requires ValidConfig(c)
    decreases acts
  {
    || !CanStep(c, s, who)
    || (acts != [] && Enabled(c, s, acts[0]) && Stalls(c, Apply(c, s, acts[0]), acts[1..], who))
  }

  /** As long as nothing fruitful has happened the helper can step and has stepped at most
      `d` times. */
  lemma {:induction false} HelperRuns(c: Config, s: Transfer, acts: seq<Action>, t: Transfer, who: Who, d: nat)
    requires ValidConfig(c) && Inv(c, s) && Runs(c, s, acts, t) && Helps(c, s, who, d)
    ensures Left(c, t) < Left(c, s) || (StepsOf(who, acts) <= d && !Stalls(c, s, acts, who))
    decreases acts
  {
    hide Inv, Apply, Enabled, Fruitless, Left, Helps;
    HelperSteps(c, s, who, d);
    if acts != [] {
      var a, u := acts[0], Apply(c, s, acts[0]);
      InvStep(c, s, a);
      if Fruitless(c, s, a) {
        LookKeeps(c, s, a);
        HelpsOn(c, s, a, who, d);
        HelperRuns(c, u, acts[1..], t, who, if Actor(a) == who then d - 1 else d);
      } else {
        StepLowers(c, s, a);
        FruitfulBounded(c, u, acts[1..], t);
      }
    }
  }

  // -------------------------------------------------- somebody can always help

  predicate AllConnected(s: Transfer) {
    forall k :: 0 <= k < |s.threads| ==> !BeforeConnect(s.threads[k].pc)
  }

  predicate AllRelayed(s: Transfer) {
    forall i :: 0 <= i < |s.relays| ==> s.relays[i].Finished?
  }

  /** Every byte is on its receiver's connection. */
  predicate AllForwarded(c: Config, s: Transfer) {
    |s.relays| == |c.blocks| && AllRelayed(s) && AllConnected(s)
  }

  /** The senders and the announcements. */
  lemma SenderHelps(c: Config, s: Transfer, i: nat) returns (who: Who)
    requires ValidConfig(c) && Inv(c, s) && i < |c.blocks| && i < |s.senders|
    requires !s.senders[i].Closed? || !IsAnnounced(s.relays[i])
    ensures Helps(c, s, who, 0) && !NextStep(c, s, who).Receive?
  {
    assert |s.wires| == |s.relays| == |c.blocks| == |s.senders|;
    SenderStage(c, s, i);
    hide Inv;
    who := if !s.senders[i].Closed? then Sending(i) else Relaying(i);
  }

  /** The handoff of the newest thread, or the message loop. */
  lemma HandoffHelps(c: Config, s: Transfer) returns (who: Who)
    requires ValidConfig(c) && Inv(c, s)
    requires |s.threads| < |s.announced| || exists k :: 0 <= k < |s.threads| && Pending(s.threads[k].pc)
    ensures Helps(c, s, who, 0) && !NextStep(c, s, who).Receive?
  {
    hide AnnouncedOk, MatchingOk, WiresOk, MappingOk, Split;
    var n := |s.threads|;
    who := if n > 0 && Pending(s.threads[n - 1].pc) then Thread(n - 1) else MessageLoop;
  }

  lemma ConnectingHelps(c: Config, s: Transfer, k: nat) returns (who: Who)
    requires k < |s.threads| && s.threads[k].pc.Connecting?
    ensures Helps(c, s, who, 0) && !NextStep(c, s, who).Receive?
  {
    who := Thread(k);
  }

  /** A used slot's relay; its connection is at most the whole table away. */
  lemma SlotHelps(c: Config, s: Transfer, j: nat) returns (who: Who, d: nat)
    requires ValidConfig(c) && Inv(c, s) && j < |s.slots| && s.slots[j].used
    ensures Helps(c, s, who, d) && d < c.slotCount && !NextStep(c, s, who).Receive?
  {
    hide HandoffOk, WiresOk, MappingOk, Split;
    assert SlotMatch(c, s, j);
    var k := s.slots[j].conn;
    assert ThreadMatch(c, s, k);
    var i := s.announced[k];
    assert RelayMatch(s, i);
    who, d := Relaying(i), Distance(s.relays[i].slot, j, |s.slots|);
    assert SeeksSlot(c, s, i, j, d);
  }

  lemma SeekerHelps(c: Config, s: Transfer, k: nat) returns (who: Who)
    requires ValidConfig(c) && Inv(c, s) && k < |s.threads| && s.threads[k].park.Seeking? && TableFree(s)
    ensures Helps(c, s, who, 0) && !NextStep(c, s, who).Receive?
  {
    hide AnnouncedOk, HandoffOk, WiresOk, MappingOk, Split;
    assert ThreadMatch(c, s, k);
    who := Parking(k);
  }

  lemma RelayHelps(c: Config, s: Transfer, i: nat) returns (who: Who)
    requires ValidConfig(c) && Inv(c, s) && IsBlock(c, s, i) && s.senders[i].Closed?
    requires s.relays[i].Reading? || s.relays[i].Tailing?
    ensures Helps(c, s, who, 0) && !NextStep(c, s, who).Receive?
  {
    RelayRest(c, s, i);
    hide Inv, Split;
    who := Relaying(i);
  }

  lemma ReaderHelps(c: Config, s: Transfer, k: nat) returns (who: Who)
    requires ValidConfig(c) && Inv(c, s) && k < |s.threads| && s.threads[k].pc.Receiving? && AllRelayed(s)
    ensures Helps(c, s, who, 0)
  {
    ReadFacts(c, s, k);
    hide Inv, Split;
    who := Thread(k);
  }

  lemma ReadFacts(c: Config, s: Transfer, k: nat)
    requires ValidConfig(c) && Inv(c, s) && k < |s.threads| && s.threads[k].pc.Receiving? && AllRelayed(s)
    ensures s.threads[k].closed && s.threads[k].got + |s.threads[k].wire| == s.threads[k].msg.bs
  {
    ConfigTiles(c);
    MoreAnnounced(c, s);
    ForwardedInBlock(c, s, k);
    RelayOfThread(c, s, k);
    ThreadStage(c, s, k);
    hide AnnouncedOk, HandoffOk, MatchingOk, MappingOk, BlockData, Split, Tiles;
    assert ThreadData(c, s, k);
  }

  lemma RelayOfThread(c: Config, s: Transfer, k: nat)
    requires ValidConfig(c) && Inv(c, s) && k < |s.threads|
    ensures k < |s.announced| && s.announced[k] < |s.relays| && RelayOf(s, k) == s.relays[s.announced[k]]
  {
    MoreAnnounced(c, s);
  }

  /** With the table free and every thread connected and not seeking, all blocks are claimed. */
  lemma AllClaimed(c: Config, s: Transfer, i: nat)
    requires ValidConfig(c) && Inv(c, s) && i < |s.relays| && IsAnnounced(s.relays[i])
    requires |s.threads| == |s.announced| && AllConnected(s) && TableFree(s)
    requires forall k :: 0 <= k < |s.threads| ==> !s.threads[k].park.Seeking?
    ensures s.relays[i].Reading? || s.relays[i].Tailing? || s.relays[i].Finished?
  {
    hide HandoffOk, WiresOk, MappingOk, Split;
    assert i in s.announced;
    var k :| 0 <= k < |s.announced| && s.announced[k] == i;
    assert ThreadMatch(c, s, k);
  }

  /** Until every byte is forwarded, somebody other than a reading thread can help. */
  lemma ForwardHelper(c: Config, s: Transfer) returns (who: Who, d: nat)
    requires ValidConfig(c) && Inv(c, s) && !AllForwarded(c, s)
    ensures Helps(c, s, who, d) && d < c.slotCount && !NextStep(c, s, who).Receive?
  {
    Sizes(c, s);
    hide Inv, Helps, NextStep, Split;
    d := 0;
    if i :| 0 <= i < |c.blocks| && (!s.senders[i].Closed? || !IsAnnounced(s.relays[i])) {
      who := SenderHelps(c, s, i);
    } else if |s.threads| < |s.announced| || exists k :: 0 <= k < |s.threads| && Pending(s.threads[k].pc) {
      who := HandoffHelps(c, s);
    } else if k :| 0 <= k < |s.threads| && s.threads[k].pc.Connecting? {
      who := ConnectingHelps(c, s, k);
    } else if j :| 0 <= j < |s.slots| && s.slots[j].used {
      who, d := SlotHelps(c, s, j);
    } else if k :| 0 <= k < |s.threads| && s.threads[k].park.Seeking? {
      who := SeekerHelps(c, s, k);
    } else {
      var i :| 0 <= i < |s.relays| && !s.relays[i].Finished?;
      AllClaimed(c, s, i);
      who := RelayHelps(c, s, i);
    }
  }

  /** Until the transfer is over, somebody can help. */
  lemma Helper(c: Config, s: Transfer) returns (who: Who, d: nat)
    requires ValidConfig(c) && Inv(c, s) && !AllDone(c, s)
    ensures Helps(c, s, who, d) && d < c.slotCount
  {
    hide Inv, Helps, Split;
    if AllForwarded(c, s) {
      var k :| 0 <= k < |s.threads| && !s.threads[k].pc.Done?;
      who := ReaderHelps(c, s, k);
      d := 0;
    } else {
      who, d := ForwardHelper(c, s);
    }
  }

  // ----------------------------------------------------------------- fairness

  /** No deadlock and no livelock: in every reachable state that is not the end there is
      one thread that brings the end nearer, whatever the others do.  As long as nothing
      fruitful has happened it can step, and within `slotCount` steps of its own
      something fruitful has. */
  lemma SomeoneHelps(c: Config, s: Transfer) returns (who: Who)
    requires ValidConfig(c) && Reachable(c, s) && !AllDone(c, s)
    ensures forall acts, t | Runs(c, s, acts, t) ::
      Left(c, t) < Left(c, s) || (StepsOf(who, acts) < c.slotCount && !Stalls(c, s, acts, who))
  {
    ReachableInv(c, s);
    var d;
    who, d := Helper(c, s);
    hide Inv, Helps, Left, Runs, Stalls;
    forall acts, t | Runs(c, s, acts, t)
      ensures Left(c, t) < Left(c, s) || (StepsOf(who, acts) < c.slotCount && !Stalls(c, s, acts, who))
    {
      HelperRuns(c, s, acts, t, who, d);
    }
  }

  /** A stretch of a run in which every thread takes `slotCount` steps or is at some point
      unable to take one. */
  ghost predicate FairRound(c: Config, s: Transfer, acts: seq<Action>)
    requires ValidConfig(c)
  {
    forall who :: StepsOf(who, acts) >= c.slotCount || Stalls(c, s, acts, who)
  }

  /** A run cut into fair rounds. */
  ghost predicate FairRun(c: Config, s: Transfer, rounds: seq<seq<Action>>, t: Transfer)
    requires ValidConfig(c)
    decreases rounds
  {
    if rounds == [] then s == t
    else FairRound(c, s, rounds[0]) && exists u :: Runs(c, s, rounds[0], u) && FairRun(c, u, rounds[1..], t)
  }

  lemma NobodyConnects(c: Config, s: Transfer, a: Action)
    requires ValidConfig(c) && Inv(c, s) && Enabled(c, s, a) && AllDone(c, s)
    ensures !a.Connect?
  {
    Sizes(c, s);
    forall i | 0 <= i < |s.relays| ensures !Enabled(c, s, Connect(i)) {
      NotConnecting(c, s, i);
    }
    hide Inv;
  }

  /** The end is final. */
  lemma DoneStays(c: Config, s: Transfer, a: Action)
    requires ValidConfig(c) && Inv(c, s) && Enabled(c, s, a) && AllDone(c, s)
    ensures AllDone(c, Apply(c, s, a))
  {
    hide Inv, Split, Peek, Delivers, Poke;
    NothingToSpawn(c, s);
    NobodyConnects(c, s, a);
    assert a.Write? || a.MainRecv? || a.ParkStep?;
  }

  lemma NothingToSpawn(c: Config, s: Transfer)
    requires ValidConfig(c) && Inv(c, s) && AllDone(c, s)
    ensures s.main.Listening?
  {
    MatchingFacts(c, s);
    hide AnnouncedOk, HandoffOk, WiresOk, MappingOk, Split;
    if |s.threads| < |s.announced| {
      assert RelayOf(s, |s.threads|).Scanning?;
    }
  }

  lemma {:induction false} DoneStaysDone(c: Config, s: Transfer, acts: seq<Action>, t: Transfer)
    requires ValidConfig(c) && Inv(c, s) && AllDone(c, s) && Runs(c, s, acts, t)
    ensures AllDone(c, t)
    decreases acts
  {
    hide Inv, Apply, Enabled, AllDone;
    if acts != [] {
      InvStep(c, s, acts[0]);
      DoneStays(c, s, acts[0]);
      DoneStaysDone(c, Apply(c, s, acts[0]), acts[1..], t);
    }
  }

  /** A fair round brings the end nearer unless it is reached. */
  lemma RoundLowers(c: Config, s: Transfer, acts: seq<Action>, t: Transfer)
    requires ValidConfig(c) && Inv(c, s) && Runs(c, s, acts, t) && FairRound(c, s, acts)
    ensures AllDone(c, t) || Left(c, t) < Left(c, s)
  {
    hide Inv, Left, Stalls, AllDone, Helps, Runs;
    if AllDone(c, s) {
      DoneStaysDone(c, s, acts, t);
    } else {
      var who, d := Helper(c, s);
      HelperRuns(c, s, acts, t, who, d);
    }
  }

  lemma {:induction false} FairRunEnds(c: Config, s: Transfer, rounds: seq<seq<Action>>, t: Transfer)
    requires ValidConfig(c) && Inv(c, s) && FairRun(c, s, rounds, t)
    ensures AllDone(c, t) || |rounds| + Left(c, t) <= Left(c, s)
    decreases rounds
  {
    hide Inv, Left, AllDone, FairRound;
    if rounds != [] {
      var u :| Runs(c, s, rounds[0], u) && FairRun(c, u, rounds[1..], t);
      hide Runs;
      InvRuns(c, s, rounds[0], u);
      FairRunEnds(c, u, rounds[1..], t);
      if AllDone(c, u) {
        FairRunDone(c, u, rounds[1..], t);
      } else {
        RoundLowers(c, s, rounds[0], u);
      }
    }
  }

  lemma {:induction false} FairRunDone(c: Config, s: Transfer, rounds: seq<seq<Action>>, t: Transfer)
    requires ValidConfig(c) && Inv(c, s) && AllDone(c, s) && FairRun(c, s, rounds, t)
    ensures AllDone(c, t)
    decreases rounds
  {
    hide Inv, AllDone, FairRound;
    if rounds != [] {
      var u :| Runs(c, s, rounds[0], u) && FairRun(c, u, rounds[1..], t);
      hide Runs;
      InvRuns(c, s, rounds[0], u);
      DoneStaysDone(c, s, rounds[0], u);
      FairRunDone(c, u, rounds[1..], t);
    }
  }

  /** Every fair schedule finishes the transfer, with any number of blocks and slots: a run
      from any reachable state with more fair rounds than `Left` ends with all blocks
      relayed and received. */
  lemma FairSchedulesFinish(c: Config, s: Transfer, rounds: seq<seq<Action>>, t: Transfer)
    requires ValidConfig(c) && Reachable(c, s) && FairRun(c, s, rounds, t) && |rounds| > Left(c, s)
    ensures AllDone(c, t)
  {
    hide Inv, Left, AllDone, FairRun;
    ReachableInv(c, s);
    FairRunEnds(c, s, rounds, t);
  }

  // --------------------------------------------------------- particular runs

  /** `t` can be reached from `s`. */
  ghost predicate Leads(c: Config, s: Transfer, t: Transfer)
    requires ValidConfig(c)
  {
    exists acts: seq<Action> :: Runs(c, s, acts, t)
  }

  /** Nothing has been received yet. */
  ghost predicate NothingStored(s: Transfer) {
    forall k :: 0 <= k < |s.threads| ==> s.threads[k].got == 0 && !s.threads[k].pc.Done?
  }

  /** On the way from `s0`, no receive on the way coming short; `clean` if none has been made. */
  ghost predicate At(c: Config, s0: Transfer, s: Transfer, clean: bool)
    requires ValidConfig(c)
  {
    Leads(c, s0, s) && Inv(c, s) && (Complete(s0) ==> Complete(s)) && (clean ==> NothingStored(s))
  }

  lemma {:induction false} RunsAppend(c: Config, s: Transfer, acts: seq<Action>, t: Transfer, a: Action)
    requires ValidConfig(c) && Runs(c, s, acts, t) && Enabled(c, t, a)
    ensures Runs(c, s, acts + [a], Apply(c, t, a))
    decreases acts
  {
    hide Enabled, Apply;
    var all := acts + [a];
    if acts == [] {
      assert Runs(c, Apply(c, s, a), [], Apply(c, t, a));
      assert all[1..] == [];
    } else {
      RunsAppend(c, Apply(c, s, acts[0]), acts[1..], t, a);
      assert all[1..] == acts[1..] + [a];
    }
  }

  lemma LeadsOn(c: Config, s0: Transfer, s: Transfer, a: Action)
    requires ValidConfig(c) && Leads(c, s0, s) && Enabled(c, s, a)
    ensures Leads(c, s0, Apply(c, s, a))
  {
    hide Enabled, Apply;
    var acts: seq<Action> :| Runs(c, s0, acts, s);
    RunsAppend(c, s0, acts, s, a);
  }

  lemma NothingStoredStep(c: Config, s: Transfer, a: Action)
    requires ValidConfig(c) && NothingStored(s) && Enabled(c, s, a) && !a.Receive?
    ensures NothingStored(Apply(c, s, a))
  {
    hide Split, Peek, Delivers;
    if a.Scan? || a.RelayRecv? || a.RelayTail? {
      var t := Apply(c, s, a);
      RelayThreads(c, s, a);
      hide Apply, Enabled;
      forall k | 0 <= k < |t.threads| ensures t.threads[k].got == 0 && !t.threads[k].pc.Done? {
        RelayLeavesThread(c, s, a, k);
      }
    }
  }

  /** Takes one more step. */
  lemma Go(c: Config, s0: Transfer, s: Transfer, clean: bool, a: Action) returns (t: Transfer)
    requires ValidConfig(c) && At(c, s0, s, clean) && Enabled(c, s, a)
    requires FullReceive(c, s, a) && (clean ==> !a.Receive?)
    ensures t == Apply(c, s, a) && At(c, s0, t, clean)
  {
    hide Leads, Inv, Complete, NothingStored, Enabled, Apply, FullReceive;
    t := Apply(c, s, a);
    LeadsOn(c, s0, s, a);
    InvStep(c, s, a);
    if Complete(s) {
      CompleteStep(c, s, a);
    }
    if clean {
      NothingStoredStep(c, s, a);
    }
  }

  lemma HelperFacts(c: Config, s: Transfer, who: Who, d: nat)
    requires Helps(c, s, who, d)
    ensures Enabled(c, s, NextStep(c, s, who)) && Actor(NextStep(c, s, who)) == who && (d > 0 ==> who.Relaying?)
  {
    hide Enabled;
  }

  /** A helper's step brings the end nearer or the helper. */
  lemma HelperStep(c: Config, s: Transfer, who: Who, d: nat)
    requires ValidConfig(c) && Inv(c, s) && Helps(c, s, who, d)
    ensures var a := NextStep(c, s, who);
      && Enabled(c, s, a)
      && (Left(c, Apply(c, s, a)) < Left(c, s)
          || (Left(c, Apply(c, s, a)) == Left(c, s) && who.Relaying? && d > 0 && Helps(c, Apply(c, s, a), who, d - 1)))
  {
    HelperFacts(c, s, who, d);
    hide Inv, Apply, Left, Fruitless, Enabled, NextStep, Helps, Split;
    var a := NextStep(c, s, who);
    if Fruitless(c, s, a) {
      LookKeeps(c, s, a);
      HelpsOn(c, s, a, who, d);
    } else {
      StepLowers(c, s, a);
    }
  }

  /** `who` can help, and not by receiving, unless every byte is forwarded. */
  ghost predicate HelpsForward(c: Config, s: Transfer, who: Who, d: nat) {
    AllForwarded(c, s) || (Helps(c, s, who, d) && !NextStep(c, s, who).Receive?)
  }

  lemma ForwardStep(c: Config, s0: Transfer, s: Transfer, clean: bool, who: Who, d: nat)
    returns (t: Transfer, next: Who, e: nat)
    requires ValidConfig(c) && At(c, s0, s, clean) && HelpsForward(c, s, who, d) && !AllForwarded(c, s)
    ensures At(c, s0, t, clean) && HelpsForward(c, t, next, e)
    ensures Left(c, t) < Left(c, s) || (Left(c, t) == Left(c, s) && e < d)
  {
    hide At, Helps, Apply, Enabled, AllForwarded, Left, Inv, NextStep, Split, FullReceive;
    AtInv(c, s0, s, clean);
    HelperStep(c, s, who, d);
    IsFull(c, s, NextStep(c, s, who));
    t := Go(c, s0, s, clean, NextStep(c, s, who));
    AtInv(c, s0, t, clean);
    next, e := who, 0;
    if Left(c, t) == Left(c, s) {
      RelaysForward(c, t, who);
      e := d - 1;
    } else if !AllForwarded(c, t) {
      next, e := ForwardHelper(c, t);
    }
  }

  /** From anywhere, without a receive, to the point where every byte is on its receiver's
      connection. */
  lemma {:induction false} ForwardEverything(c: Config, s0: Transfer, s: Transfer, clean: bool, who: Who, d: nat)
    returns (t: Transfer)
    requires ValidConfig(c) && At(c, s0, s, clean) && HelpsForward(c, s, who, d)
    ensures At(c, s0, t, clean) && AllForwarded(c, t)
    decreases Left(c, s), d
  {
    hide At, HelpsForward, AllForwarded, Left, Split;
    t := s;
    if !AllForwarded(c, s) {
      var next, e;
      t, next, e := ForwardStep(c, s0, s, clean, who, d);
      t := ForwardEverything(c, s0, t, clean, next, e);
    }
  }

  lemma IsFull(c: Config, s: Transfer, a: Action)
    requires !a.Receive?
    ensures FullReceive(c, s, a)
  {
  }

  lemma RelaysForward(c: Config, s: Transfer, who: Who)
    requires who.Relaying?
    ensures !NextStep(c, s, who).Receive?
  {
  }

  lemma AtInv(c: Config, s0: Transfer, s: Transfer, clean: bool)
    requires ValidConfig(c) && At(c, s0, s, clean)
    ensures Inv(c, s)
  {
  }

  /** Reading changes nothing but one thread and the mapping. */
  lemma {:induction false} ReadOut(c: Config, s0: Transfer, s: Transfer, k: nat) returns (t: Transfer)
    requires ValidConfig(c) && At(c, s0, s, false) && k < |s.threads| && s.threads[k].pc.Receiving?
    requires AllRelayed(s)
    ensures At(c, s0, t, false) && |t.threads| == |s.threads|
    ensures t == s.(mapping := t.mapping, threads := s.threads[k := t.threads[k]])
    ensures t.threads[k].pc.Done?
    decreases |s.threads[k].wire|
  {
    ReadFacts(c, s, k);
    hide At, AllRelayed, Split, Poke, Leads, Inv, Complete, NothingStored;
    t := Go(c, s0, s, false, Receive(k, Min(c.recvBuf, |s.threads[k].wire|)));
    if t.threads[k].pc.Receiving? {
      t := ReadOut(c, s0, t, k);
    }
  }

  predicate AllRead(s: Transfer, n: nat, skip: int) {
    n <= |s.threads| && forall k :: 0 <= k < n && k != skip ==> s.threads[k].pc.Done?
  }

  /** All threads read their blocks out, except `skip` if there is such a thread. */
  lemma {:induction false} ReadAll(c: Config, s0: Transfer, s: Transfer, n: nat, skip: int) returns (t: Transfer)
    requires ValidConfig(c) && At(c, s0, s, false) && AllRelayed(s) && AllConnected(s) && AllRead(s, n, skip)
    ensures At(c, s0, t, false) && t == s.(mapping := t.mapping, threads := t.threads) && |t.threads| == |s.threads|
    ensures AllRead(t, |t.threads|, skip) && (0 <= skip < |s.threads| ==> t.threads[skip] == s.threads[skip])
    decreases |s.threads| - n
  {
    hide At;
    t := s;
    if n < |s.threads| {
      if n != skip && s.threads[n].pc.Receiving? {
        t := ReadOut(c, s0, s, n);
      }
      t := ReadAll(c, s0, t, n + 1, skip);
    }
  }

  lemma Forward(c: Config, s0: Transfer, s: Transfer, clean: bool) returns (t: Transfer)
    requires ValidConfig(c) && At(c, s0, s, clean)
    ensures At(c, s0, t, clean) && AllForwarded(c, t)
  {
    AtInv(c, s0, s, clean);
    hide At, Helps, AllForwarded, NextStep, Split;
    var who, d := MessageLoop, 0;
    if !AllForwarded(c, s) {
      who, d := ForwardHelper(c, s);
    }
    t := ForwardEverything(c, s0, s, clean, who, d);
  }

  /** Never wedged: every reachable state leads on to a finished transfer, whatever the
      number of blocks and slots, and the copy is faithful unless a receive has already
      come short. */
  lemma NeverWedged(c: Config, s: Transfer) returns (acts: seq<Action>, t: Transfer)
    requires ValidConfig(c) && Reachable(c, s)
    ensures Runs(c, s, acts, t) && AllDone(c, t)
    ensures Complete(s) ==> t.mapping == c.file
  {
    ReachableInv(c, s);
    assert Runs(c, s, [], s);
    hide Inv, Runs, Split;
    t := Forward(c, s, s, false);
    t := ReadAll(c, s, t, 0, -1);
    CopyIsFileIff(c, t);
    if Complete(t) {
      CompleteAgrees(c, t);
    }
    acts :| Runs(c, s, acts, t);
  }

  lemma CompleteAgrees(c: Config, s: Transfer)
    requires Complete(s) && AllDone(c, s)
    ensures MissingAgree(c, s)
  {
  }

  /** The proviso of `EndToEnd` is needed: for every transfer with a block of at least two
      bytes there is a run, with one receive of a single byte, that ends with a wrong
      copy if the block's second byte was not there already. */
  lemma ShortReceiveLosesBytes(c: Config, i: nat) returns (acts: seq<Action>, t: Transfer)
    requires ValidConfig(c) && i < |c.blocks| && c.blocks[i].bs >= 2 && c.recvBuf >= 2
    requires c.blocks[i].offset + 1 < |c.file| && c.file[c.blocks[i].offset + 1] != c.initial[c.blocks[i].offset + 1]
    ensures Runs(c, Start(c), acts, t) && AllDone(c, t) && t.mapping != c.file
  {
    var s := Start(c);
    StartInv(c);
    assert Runs(c, s, [], s);
    t := Forward(c, s, s, true);
    var k := t.relays[i].conn;
    assert RelayMatch(t, i) && At(c, s, t, false);
    hide Inv, Runs, Split, Start;
    t := ReadAll(c, s, t, 0, k);
    LastShortReceive(c, t, i, k);
    LeadsOn(c, s, t, Receive(k, 1));
    t := Apply(c, t, Receive(k, 1));
    acts :| Runs(c, s, acts, t);
  }

  lemma LastShortReceive(c: Config, s: Transfer, i: nat, k: nat)
    requires ValidConfig(c) && Inv(c, s) && i < |c.blocks| && c.blocks[i].bs >= 2 && c.recvBuf >= 2
    requires c.blocks[i].offset + 1 < |c.file| && c.file[c.blocks[i].offset + 1] != c.initial[c.blocks[i].offset + 1]
    requires |s.relays| == |c.blocks| && AllRelayed(s) && AllRead(s, |s.threads|, k) && s.relays[i] == Finished(k)
    requires k < |s.threads| && s.threads[k].pc.Receiving? && s.threads[k].got == 0
    ensures Enabled(c, s, Receive(k, 1))
    ensures var t := Apply(c, s, Receive(k, 1)); AllDone(c, t) && t.mapping != c.file
  {
    ReadFacts(c, s, k);
    assert RelayMatch(s, i);
    var t := Apply(c, s, Receive(k, 1));
    InvStep(c, s, Receive(k, 1));
    CopyIsFileIff(c, t);
    assert InBlock(t.threads[k].msg, c.blocks[i].offset + 1);
  }
}
