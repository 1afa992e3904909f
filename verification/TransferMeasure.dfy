/** What is left to do in a transfer, as a number.  Every step lowers it except a look at
    a slot that does not help, so only searches of the table could go on for ever. */
module TransferMeasure {
  import opened Counting
  import opened Blocks
  import opened TransferSystem
  import opened TransferHandoff
  import opened TransferMatching
  import opened TransferData
  import opened TransferTheorems

  // ------------------------------------------------------------------- sums

  function Sum(n: nat, f: nat -> nat): nat {
    if n == 0 then 0 else Sum(n - 1, f) + f(n - 1)
  }

  /** Changing one term changes the sum by as much. */
  lemma {:induction false} SumChange(n: nat, f: nat -> nat, g: nat -> nat, j: nat)
    requires forall i: nat :: i < n && i != j ==> g(i) == f(i)
    ensures Sum(n, g) + (if j < n then f(j) else 0) == Sum(n, f) + (if j < n then g(j) else 0)
  {
    if n > 0 {
      SumChange(n - 1, f, g, j);
    }
  }

  // ---------------------------------------------------------------- measure

  /** The steps a sender has left, of `whole` whole pieces and a rest. */
  function SenderLeft(w: Sender, whole: nat): nat {
    match w
    case Ready => whole + 2
    case Writing(i, _, _) => if i <= whole then whole + 1 - i else 0
    case Closed => 0
  }

  function AtLeast0(x: int): nat {
    if x < 0 then 0 else x
  }

  /** A relay before its announcement has the whole life of the receiving thread ahead. */
  function RelayLeft(r: Relay, bs: nat): nat {
    match r
    case Scanning(_) => 2 * bs + 3
    case Reading(_, remain) => 2 * AtLeast0(remain) + 2
    case Tailing(_, remain) => 2 * AtLeast0(remain) + 1
    case Finished(_) => 0
    case _ => 3 * bs + 15
  }

  function BlockLeft(c: Config, s: Transfer, i: nat): nat
    requires c.sendSize > 0
  {
    if IsBlock(c, s, i) then
      SenderLeft(s.senders[i], c.blocks[i].bs / c.sendSize) + RelayLeft(s.relays[i], c.blocks[i].bs)
    else 0
  }

  function PcLeft(r: Receiver, bs: nat): nat {
    match r.pc
    case Waiting => bs + 5
    case Taking => bs + 4
    case Giving => bs + 3
    case Connecting => bs + 2
    case Receiving => AtLeast0(bs - r.got) + 1
    case Done => 0
  }

  function ThreadLeft(r: Receiver, bs: nat): nat {
    PcLeft(r, bs) + Bit(r.park.Absent? || r.park.Seeking?)
  }

  function MainDone(m: MainPc): nat {
    match m
    case Listening => 0
    case Got(_) => 1
    case Copying(_) => 2
    case Posting => 3
    case Spawning => 4
  }

  /** What the k-th announcement has ahead: in the inbox, in the message loop, or with its thread. */
  function AnnouncedLeft(c: Config, s: Transfer, k: nat): nat {
    var bs := Nth(c, s.announced, k).bs;
    if k < |s.threads| then ThreadLeft(s.threads[k], bs)
    else if k == |s.threads| then bs + 11 - MainDone(s.main)
    else bs + 11
  }

  function BlocksLeft(c: Config, s: Transfer): nat
    requires c.sendSize > 0
  {
    Sum(|c.blocks|, i => BlockLeft(c, s, i))
  }

  function ThreadsLeft(c: Config, s: Transfer): nat {
    Sum(|s.announced|, k => AnnouncedLeft(c, s, k))
  }

  function Left(c: Config, s: Transfer): nat
    requires c.sendSize > 0
  {
    BlocksLeft(c, s) + ThreadsLeft(c, s)
  }

  lemma BlocksChange(c: Config, s: Transfer, t: Transfer, i: nat)
    requires c.sendSize > 0 && i < |c.blocks|
    requires forall x: nat :: x < |c.blocks| && x != i ==> BlockLeft(c, t, x) == BlockLeft(c, s, x)
    ensures BlocksLeft(c, t) + BlockLeft(c, s, i) == BlocksLeft(c, s) + BlockLeft(c, t, i)
  {
    SumChange(|c.blocks|, x => BlockLeft(c, s, x), x => BlockLeft(c, t, x), i);
  }

  lemma ThreadsChange(c: Config, s: Transfer, t: Transfer, k: nat)
    requires t.announced == s.announced
    requires forall x: nat :: x < |s.announced| && x != k ==> AnnouncedLeft(c, t, x) == AnnouncedLeft(c, s, x)
    ensures ThreadsLeft(c, t) + (if k < |s.announced| then AnnouncedLeft(c, s, k) else 0)
      == ThreadsLeft(c, s) + (if k < |s.announced| then AnnouncedLeft(c, t, k) else 0)
  {
    SumChange(|s.announced|, x => AnnouncedLeft(c, s, x), x => AnnouncedLeft(c, t, x), k);
  }

  lemma BlocksSame(c: Config, s: Transfer, t: Transfer)
    requires c.sendSize > 0 && t.senders == s.senders && t.relays == s.relays && |t.wires| == |s.wires|
    ensures BlocksLeft(c, t) == BlocksLeft(c, s)
  {
    forall x: nat ensures BlockLeft(c, t, x) == BlockLeft(c, s, x) {
    }
    SumChange(|c.blocks|, x => BlockLeft(c, s, x), x => BlockLeft(c, t, x), |c.blocks|);
  }

  // -------------------------------------------------------- steps lower it

  /** A locked look at a slot that is not the one looked for. */
  predicate Fruitless(c: Config, s: Transfer, a: Action) {
    match a
    case Scan(i) =>
      IsBlock(c, s, i) && s.relays[i].Scanning? && s.relays[i].slot < |s.slots|
      && !(s.slots[s.relays[i].slot].used && s.slots[s.relays[i].slot].offset == c.blocks[i].offset)
    case ParkStep(k) =>
      IsThread(s, k) && s.threads[k].park.Seeking? && s.threads[k].park.slot < |s.slots|
      && s.slots[s.threads[k].park.slot].used
    case _ => false
  }

  /** The threads are as they were, as far as their remaining work goes. */
  predicate ThreadsAlike(s: Transfer, t: Transfer) {
    && |t.threads| == |s.threads| && t.main == s.main && t.announced == s.announced
    && forall k :: 0 <= k < |s.threads| ==>
         && t.threads[k].pc == s.threads[k].pc && t.threads[k].got == s.threads[k].got
         && (t.threads[k].park.Absent? || t.threads[k].park.Seeking?
             <==> s.threads[k].park.Absent? || s.threads[k].park.Seeking?)
  }

  lemma ThreadsSame(c: Config, s: Transfer, t: Transfer)
    requires ThreadsAlike(s, t)
    ensures ThreadsLeft(c, t) == ThreadsLeft(c, s)
  {
    forall x: nat ensures AnnouncedLeft(c, t, x) == AnnouncedLeft(c, s, x) {
    }
    ThreadsChange(c, s, t, |s.announced|);
  }

  /** A step that lowers one block's part. */
  lemma OneBlock(c: Config, s: Transfer, t: Transfer, i: nat)
    requires c.sendSize > 0 && IsBlock(c, s, i) && IsBlock(c, t, i) && ThreadsAlike(s, t)
    requires t.senders == s.senders[i := t.senders[i]] && t.relays == s.relays[i := t.relays[i]]
    requires |t.wires| == |s.wires| && BlockLeft(c, t, i) < BlockLeft(c, s, i)
    ensures Left(c, t) < Left(c, s)
  {
    forall x: nat | x < |c.blocks| && x != i ensures BlockLeft(c, t, x) == BlockLeft(c, s, x) {
    }
    hide BlockLeft, BlocksLeft, ThreadsLeft;
    BlocksChange(c, s, t, i);
    ThreadsSame(c, s, t);
  }

  lemma ConnectLowers(c: Config, s: Transfer, i: nat)
    requires ValidConfig(c) && Inv(c, s) && Enabled(c, s, Connect(i))
    ensures Left(c, Apply(c, s, Connect(i))) < Left(c, s)
  {
    SenderStage(c, s, i);
    hide Split, Inv, Left;
    OneBlock(c, s, Apply(c, s, Connect(i)), i);
  }

  lemma WriteLowers(c: Config, s: Transfer, i: nat)
    requires ValidConfig(c) && Inv(c, s) && Enabled(c, s, Write(i))
    ensures Left(c, Apply(c, s, Write(i))) < Left(c, s)
  {
    SenderStage(c, s, i);
    hide Split, Peek, Inv, Left, RelayLeft;
    OneBlock(c, s, AfterWrite(c, s, i), i);
  }

  lemma SenderStage(c: Config, s: Transfer, i: nat)
    requires ValidConfig(c) && Inv(c, s) && IsBlock(c, s, i)
    ensures s.senders[i].Ready? <==> s.relays[i].NoConn?
    ensures s.senders[i].Writing? ==> s.senders[i].i <= c.blocks[i].bs / c.sendSize
  {
    hide Split, Peek, HandoffOk, MatchingOk, MappingOk, ThreadData;
    assert BlockData(c, s, i);
  }

  lemma AnnounceLowers(c: Config, s: Transfer, i: nat)
    requires ValidConfig(c) && Inv(c, s) && Enabled(c, s, Announce(i))
    ensures Left(c, Apply(c, s, Announce(i))) < Left(c, s)
  {
    MoreAnnounced(c, s);
    hide Split, Inv, BlocksLeft, ThreadsLeft;
    var t := Apply(c, s, Announce(i));
    AnnounceBlocks(c, s, i);
    AnnounceThreads(c, s, t, i);
  }

  lemma AnnounceBlocks(c: Config, s: Transfer, i: nat)
    requires ValidConfig(c) && Enabled(c, s, Announce(i))
    ensures BlocksLeft(c, Apply(c, s, Announce(i))) + c.blocks[i].bs + 12 == BlocksLeft(c, s)
  {
    hide Split, BlocksLeft, SenderLeft;
    BlocksChange(c, s, Apply(c, s, Announce(i)), i);
  }

  lemma AnnounceThreads(c: Config, s: Transfer, t: Transfer, i: nat)
    requires i < |c.blocks| && |s.threads| <= |s.announced|
    requires t.announced == s.announced + [i] && t.threads == s.threads && t.main == s.main
    ensures ThreadsLeft(c, t) <= ThreadsLeft(c, s) + c.blocks[i].bs + 11
  {
    hide Sum, ThreadLeft, MainDone;
    var n := |s.announced|;
    SumChange(n, k => AnnouncedLeft(c, s, k), k => AnnouncedLeft(c, t, k), n);
    SumGrows(n, k => AnnouncedLeft(c, t, k));
  }

  lemma SumGrows(n: nat, f: nat -> nat)
    ensures Sum(n + 1, f) == Sum(n, f) + f(n)
  {
  }

  /** A claim, or a receive of the relay: its own block only. */
  lemma RelayLowers(c: Config, s: Transfer, a: Action)
    requires ValidConfig(c) && Inv(c, s) && Enabled(c, s, a) && (a.Scan? || a.RelayRecv? || a.RelayTail?)
    requires !Fruitless(c, s, a)
    ensures Left(c, Apply(c, s, a)) < Left(c, s)
  {
    RelayStepLeft(c, s, a);
    hide Inv, Apply, Enabled, Split, RelayLeft, SenderLeft, Left;
    OneBlock(c, s, Apply(c, s, a), a.i);
  }

  /** What such a step changes. */
  lemma RelayStepLeft(c: Config, s: Transfer, a: Action)
    requires ValidConfig(c) && Inv(c, s) && Enabled(c, s, a) && (a.Scan? || a.RelayRecv? || a.RelayTail?)
    requires !Fruitless(c, s, a)
    ensures var t := Apply(c, s, a);
      && ThreadsAlike(s, t) && IsBlock(c, t, a.i) && |t.senders| == |s.senders| && |t.wires| == |s.wires|
      && t.senders == s.senders && |t.relays| == |s.relays| && t.relays == s.relays[a.i := t.relays[a.i]]
      && RelayLeft(t.relays[a.i], c.blocks[a.i].bs) < RelayLeft(s.relays[a.i], c.blocks[a.i].bs)
  {
    if a.Scan? {
      ClaimLeft(c, s, a.i);
    } else {
      ReceiveLeft(c, s, a);
    }
  }

  lemma ClaimLeft(c: Config, s: Transfer, i: nat)
    requires ValidConfig(c) && Inv(c, s) && Enabled(c, s, Scan(i)) && !Fruitless(c, s, Scan(i))
    ensures var t := Apply(c, s, Scan(i));
      && ThreadsAlike(s, t) && IsBlock(c, t, i) && t.senders == s.senders && t.wires == s.wires
      && |t.relays| == |s.relays| && t.relays == s.relays[i := t.relays[i]]
      && RelayLeft(t.relays[i], c.blocks[i].bs) < RelayLeft(s.relays[i], c.blocks[i].bs)
  {
    ConfigTiles(c);
    SlotIsMine(c, s, i, s.relays[i].slot);
    hide Inv, Split, Tiles;
  }

  lemma ReceiveLeft(c: Config, s: Transfer, a: Action)
    requires ValidConfig(c) && Inv(c, s) && Enabled(c, s, a) && (a.RelayRecv? || a.RelayTail?)
    ensures var t := Apply(c, s, a);
      && ThreadsAlike(s, t) && IsBlock(c, t, a.i) && t.senders == s.senders && |t.wires| == |s.wires|
      && |t.relays| == |s.relays| && t.relays == s.relays[a.i := t.relays[a.i]]
      && RelayLeft(t.relays[a.i], c.blocks[a.i].bs) < RelayLeft(s.relays[a.i], c.blocks[a.i].bs)
  {
    hide Inv, Split, Peek, Apply, Delivers;
    RelayReads(c, s, a);
    RelayShape(c, s, a);
    var k := s.relays[a.i].conn;
    forall v | 0 <= v < |s.threads| && v != k ensures Apply(c, s, a).threads[v] == s.threads[v] {
    }
  }

  /** A relay in its loop always has something to read, or is at its end. */
  lemma RelayReads(c: Config, s: Transfer, a: Action)
    requires ValidConfig(c) && Inv(c, s) && Enabled(c, s, a) && (a.RelayRecv? || a.RelayTail?)
    ensures a.n > 0 || (s.relays[a.i].Tailing? && s.relays[a.i].remain == 0)
    ensures s.relays[a.i].remain >= a.n
    ensures s.relays[a.i].conn < |s.threads| && !s.threads[s.relays[a.i].conn].closed
  {
    RelayBusy(c, s, a.i);
    RelayRest(c, s, a.i);
    hide Inv, Split;
  }

  lemma RelayRest(c: Config, s: Transfer, i: nat)
    requires ValidConfig(c) && Inv(c, s) && IsBlock(c, s, i) && (s.relays[i].Reading? || s.relays[i].Tailing?)
    ensures s.relays[i].Reading? ==> s.relays[i].remain > 0
    ensures s.senders[i].Closed? ==> s.relays[i].remain == |s.wires[i]|
  {
    ConfigTiles(c);
    hide Split, AnnouncedOk, HandoffOk, MatchingOk, MappingOk, ThreadData;
    assert BlockData(c, s, i);
  }

  /** A step that lowers the part of one announcement. */
  lemma OneThread(c: Config, s: Transfer, t: Transfer, k: nat)
    requires c.sendSize > 0 && t.senders == s.senders && t.relays == s.relays && |t.wires| == |s.wires|
    requires t.announced == s.announced && k < |s.announced|
    requires forall x: nat :: x < |s.announced| && x != k ==> AnnouncedLeft(c, t, x) == AnnouncedLeft(c, s, x)
    requires AnnouncedLeft(c, t, k) < AnnouncedLeft(c, s, k)
    ensures Left(c, t) < Left(c, s)
  {
    hide AnnouncedLeft, BlocksLeft, ThreadsLeft;
    BlocksSame(c, s, t);
    ThreadsChange(c, s, t, k);
  }

  lemma MainLowers(c: Config, s: Transfer, a: Action)
    requires ValidConfig(c) && Inv(c, s) && Enabled(c, s, a)
    requires a.MainRecv? || a.MainWait? || a.MainCopy? || a.MainPost? || a.MainSpawn?
    ensures Left(c, Apply(c, s, a)) < Left(c, s)
  {
    MatchingFacts(c, s);
    hide Inv, Split, Left;
    OneThread(c, s, Apply(c, s, a), |s.threads|);
  }

  lemma ThreadLowers(c: Config, s: Transfer, a: Action)
    requires ValidConfig(c) && Inv(c, s) && Enabled(c, s, a) && !Fruitless(c, s, a)
    requires a.ThreadWait? || a.ThreadCopy? || a.ThreadPost? || a.ThreadConnect? || a.ParkStep? || a.Receive?
    ensures Left(c, Apply(c, s, a)) < Left(c, s)
  {
    ThreadReady(c, s, a);
    hide Inv, Split, Left, Apply, Enabled, ThreadLeft, Fruitless;
    ThreadStepLeft(c, s, a);
    OneThread(c, s, Apply(c, s, a), a.k);
  }

  lemma ThreadReady(c: Config, s: Transfer, a: Action)
    requires ValidConfig(c) && Inv(c, s) && Enabled(c, s, a)
    requires a.ThreadWait? || a.ThreadCopy? || a.ThreadPost? || a.ThreadConnect? || a.ParkStep? || a.Receive?
    ensures var r := s.threads[a.k];
      && (BeforeConnect(r.pc) <==> r.park.Absent?) && (BeforeConnect(r.pc) ==> r.got == 0)
    ensures a.k < |s.threads| <= |s.announced|
    ensures a.Receive? ==> s.threads[a.k].got + a.n <= Nth(c, s.announced, a.k).bs
  {
    MoreAnnounced(c, s);
    ThreadStage(c, s, a.k);
    hide Inv;
    if a.Receive? {
      ReceiveWithin(c, s, a.k, a.n);
    }
  }

  /** A thread's step, or the parking of its connection, leaves that thread less to do. */
  lemma ThreadStepLeft(c: Config, s: Transfer, a: Action)
    requires ValidConfig(c) && Enabled(c, s, a) && !Fruitless(c, s, a)
    requires a.ThreadWait? || a.ThreadCopy? || a.ThreadPost? || a.ThreadConnect? || a.ParkStep? || a.Receive?
    requires var r := s.threads[a.k];
      && (BeforeConnect(r.pc) <==> r.park.Absent?) && (BeforeConnect(r.pc) ==> r.got == 0)
    requires a.Receive? ==> s.threads[a.k].got + a.n <= Nth(c, s.announced, a.k).bs
    ensures var t, bs := Apply(c, s, a), Nth(c, s.announced, a.k).bs;
      && t == s.(sem0 := t.sem0, sem1 := t.sem1, slots := t.slots, mapping := t.mapping, threads := t.threads)
      && |t.threads| == |s.threads| && t.threads == s.threads[a.k := t.threads[a.k]]
      && ThreadLeft(t.threads[a.k], bs) < ThreadLeft(s.threads[a.k], bs)
  {
    hide Split, Poke;
  }

  lemma ThreadStage(c: Config, s: Transfer, k: nat)
    requires ValidConfig(c) && Inv(c, s) && k < |s.threads|
    ensures BeforeConnect(s.threads[k].pc) <==> s.threads[k].park.Absent?
    ensures BeforeConnect(s.threads[k].pc) ==> s.threads[k].got == 0
    ensures HasCopied(s.threads[k].pc) ==> s.threads[k].msg == Nth(c, s.announced, k)
  {
    assert ThreadMatch(c, s, k) && ThreadData(c, s, k);
  }

  /** Every step but a fruitless look lowers what is left. */
  lemma StepLowers(c: Config, s: Transfer, a: Action)
    requires ValidConfig(c) && Inv(c, s) && Enabled(c, s, a) && !Fruitless(c, s, a)
    ensures Left(c, Apply(c, s, a)) < Left(c, s)
  {
    hide Inv, Apply, Enabled, Fruitless, Left;
    match a
    case Connect(i) => ConnectLowers(c, s, i);
    case Write(i) => WriteLowers(c, s, i);
    case Announce(i) => AnnounceLowers(c, s, i);
    case Scan(_) => RelayLowers(c, s, a);
    case RelayRecv(_, _) => RelayLowers(c, s, a);
    case RelayTail(_, _) => RelayLowers(c, s, a);
    case MainRecv => MainLowers(c, s, a);
    case MainWait => MainLowers(c, s, a);
    case MainCopy => MainLowers(c, s, a);
    case MainPost => MainLowers(c, s, a);
    case MainSpawn => MainLowers(c, s, a);
    case _ => ThreadLowers(c, s, a);
  }

  /** A fruitless look changes nothing but where the searcher looks next. */
  predicate OnlyLooked(s: Transfer, t: Transfer) {
    && t == s.(relays := t.relays, threads := t.threads)
    && |t.relays| == |s.relays| && |t.threads| == |s.threads|
    && (forall i :: 0 <= i < |s.relays| ==>
          t.relays[i] == s.relays[i] || (t.relays[i].Scanning? && s.relays[i].Scanning?))
    && (forall k :: 0 <= k < |s.threads| ==>
          t.threads[k] == s.threads[k]
          || (s.threads[k].park.Seeking? && t.threads[k].park.Seeking?
              && t.threads[k] == s.threads[k].(park := t.threads[k].park)))
  }

  lemma LookKeeps(c: Config, s: Transfer, a: Action)
    requires ValidConfig(c) && Enabled(c, s, a) && Fruitless(c, s, a)
    ensures OnlyLooked(s, Apply(c, s, a)) && Left(c, Apply(c, s, a)) == Left(c, s)
  {
    hide Split, Sum, SenderLeft;
    var t := Apply(c, s, a);
    assert OnlyLooked(s, t);
    ThreadsSame(c, s, t);
    SumChange(|c.blocks|, x => BlockLeft(c, s, x), x => BlockLeft(c, t, x), |c.blocks|);
  }

  /** How many steps of a run are not fruitless. */
  ghost function Fruitful(c: Config, s: Transfer, acts: seq<Action>): nat
    requires ValidConfig(c)
    decreases acts
  {
    if acts == [] || !Enabled(c, s, acts[0]) then 0
    else Bit(!Fruitless(c, s, acts[0])) + Fruitful(c, Apply(c, s, acts[0]), acts[1..])
  }

  /** No run, however scheduled, has more fruitful steps than what was left at its start. */
  lemma {:induction false} FruitfulBounded(c: Config, s: Transfer, acts: seq<Action>, t: Transfer)
    requires ValidConfig(c) && Inv(c, s) && Runs(c, s, acts, t)
    ensures Left(c, t) + Fruitful(c, s, acts) <= Left(c, s)
    decreases acts
  {
    hide Inv, Apply, Enabled, Fruitless, Left;
    if acts != [] {
      var a := acts[0];
      InvStep(c, s, a);
      if Fruitless(c, s, a) {
        LookKeeps(c, s, a);
      } else {
        StepLowers(c, s, a);
      }
      FruitfulBounded(c, Apply(c, s, a), acts[1..], t);
    }
  }
}
