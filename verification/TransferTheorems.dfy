/** What holds in every run of a transfer, and when the copy is the file. */
module TransferTheorems {
  import opened Counting
  import opened Streams
  import opened Blocks
  import opened TransferSystem
  import opened TransferHandoff
  import opened TransferMatching
  import opened TransferData

  ghost predicate Inv(c: Config, s: Transfer)
    requires ValidConfig(c)
  {
    AnnouncedOk(c, s) && HandoffOk(c, s) && MatchingOk(c, s) && WiresOk(c, s) && MappingOk(c, s)
  }

  lemma ConfigTiles(c: Config)
    requires ValidConfig(c)
    ensures Tiles(c.blocks, 0, |c.file|)
  {
    SplitTiles(0, |c.file|, c.blockSize);
  }

  lemma StartInv(c: Config)
    requires ValidConfig(c)
    ensures Inv(c, Start(c))
  {
    StartHandoff(c);
    StartMatching(c);
    StartWires(c);
  }

  lemma InvStep(c: Config, s: Transfer, a: Action)
    requires ValidConfig(c) && Inv(c, s) && Enabled(c, s, a)
    ensures Inv(c, Apply(c, s, a))
  {
    hide AnnouncedOk, HandoffOk, MatchingOk, WiresOk, MappingOk, Tiles, Apply, Enabled;
    ConfigTiles(c);
    AnnouncedStep(c, s, a);
    HandoffStep(c, s, a);
    MatchingStep(c, s, a);
    WiresStep(c, s, a);
    MappingStep(c, s, a);
  }

  lemma {:induction false} InvRuns(c: Config, s: Transfer, acts: seq<Action>, t: Transfer)
    requires ValidConfig(c) && Inv(c, s) && Runs(c, s, acts, t)
    ensures Inv(c, t)
    decreases acts
  {
    hide Inv, Apply, Enabled;
    if acts != [] {
      InvStep(c, s, acts[0]);
      InvRuns(c, Apply(c, s, acts[0]), acts[1..], t);
    }
  }

  /** The invariant holds after every run, whatever the order of the threads' steps and
      however the network cuts the receives. */
  lemma ReachableInv(c: Config, s: Transfer)
    requires ValidConfig(c) && Reachable(c, s)
    ensures Inv(c, s)
  {
    hide Inv;
    var acts: seq<Action> :| Runs(c, Start(c), acts, s);
    StartInv(c);
    InvRuns(c, Start(c), acts, s);
  }

  // ---------------------------------------------------------------- handoff

  /** The two semaphores and whoever holds what they guard are one token. */
  lemma OneToken(c: Config, s: Transfer)
    requires ValidConfig(c) && Reachable(c, s)
    ensures s.sem0 + s.sem1 + Bit(MainHolds(s.main)) + Count(s.threads, ThreadHolds) == 1
  {
    ReachableInv(c, s);
    if s.threads == [] {
    } else {
      var n := |s.threads| - 1;
      var older := s.threads[..n];
      assert s.threads == older + [s.threads[n]];
      forall r | r in older ensures !ThreadHolds(r) {
      }
      CountNone(older, ThreadHolds);
      CountAppend(older, s.threads[n], ThreadHolds);
    }
  }

  /** The k-th receiving thread copies exactly the k-th announced block, and no block is
      announced twice. */
  lemma ThreadsGetAnnouncements(c: Config, s: Transfer, k: nat)
    requires ValidConfig(c) && Reachable(c, s) && k < |s.threads| && HasCopied(s.threads[k].pc)
    ensures k < |s.announced| && s.announced[k] < |c.blocks| && s.threads[k].msg == c.blocks[s.announced[k]]
    ensures forall j :: 0 <= j < |s.announced| && s.announced[j] == s.announced[k] ==> j == k
  {
    ReachableInv(c, s);
  }

  /** The shared message is overwritten only when every thread made so far has its copy. */
  lemma CellNotOverwrittenEarly(c: Config, s: Transfer)
    requires ValidConfig(c) && Reachable(c, s) && Enabled(c, s, MainCopy)
    ensures forall k :: 0 <= k < |s.threads| ==> HasCopied(s.threads[k].pc)
  {
    hide AnnouncedOk, MatchingOk, WiresOk, MappingOk, MessagesOk, Split, Reachable;
    ReachableInv(c, s);
  }

  // ------------------------------------------------------------- rendezvous

  /** Used slots carry distinct offsets, each that of the connection parked in it. */
  lemma SlotsDistinct(c: Config, s: Transfer, i: nat, j: nat)
    requires ValidConfig(c) && Reachable(c, s) && i < |s.slots| && j < |s.slots| && s.slots[i].used && s.slots[j].used
    ensures s.slots[i].conn < |s.threads| && s.threads[s.slots[i].conn].msg.offset == s.slots[i].offset
    ensures i != j ==> s.slots[i].offset != s.slots[j].offset && s.slots[i].conn != s.slots[j].conn
  {
    ReachableInv(c, s);
    ConfigTiles(c);
    assert SlotMatch(c, s, i) && SlotMatch(c, s, j);
    var k, l := s.slots[i].conn, s.slots[j].conn;
    assert ThreadMatch(c, s, k) && ThreadMatch(c, s, l);
    if s.slots[i].offset == s.slots[j].offset {
      OffsetsDiffer(c, s, s.announced[k], l);
    }
  }

  /** A relay that has claimed a connection has the one whose receiver was told about
      its own block, and no other relay has it. */
  lemma ClaimsAreRight(c: Config, s: Transfer, i: nat, k: nat)
    requires ValidConfig(c) && Reachable(c, s) && i < |s.relays| && HasClaimed(s.relays[i], k)
    ensures k < |s.threads| && i < |c.blocks| && s.threads[k].msg == c.blocks[i]
    ensures forall x :: 0 <= x < |s.relays| && HasClaimed(s.relays[x], k) ==> x == i
  {
    ReachableInv(c, s);
    assert RelayMatch(s, i) && ThreadMatch(c, s, k);
    forall x | 0 <= x < |s.relays| && HasClaimed(s.relays[x], k) ensures x == i {
      assert RelayMatch(s, x);
    }
  }

  /** A used slot changes in one way only: the relay of the parked connection's own
      block claims it. */
  lemma ParkedUntilClaimed(c: Config, s: Transfer, a: Action, j: nat)
    requires ValidConfig(c) && Reachable(c, s) && Enabled(c, s, a) && j < |s.slots| && s.slots[j].used
    ensures var t, k := Apply(c, s, a), s.slots[j].conn;
      && |t.slots| == |s.slots| && k < |s.threads|
      && (t.slots[j] == s.slots[j]
          || (a.Scan? && c.blocks[a.i] == s.threads[k].msg && a.i < |t.relays| && HasClaimed(t.relays[a.i], k)))
  {
    ReachableInv(c, s);
    hide Apply, Enabled, Inv;
    ParkedThread(c, s, j);
    if a.Scan? {
      ScanKeepsOrClaims(c, s, a.i, j);
    } else {
      OthersKeepUsedSlot(c, s, a, j);
    }
  }

  lemma ParkedThread(c: Config, s: Transfer, j: nat)
    requires ValidConfig(c) && Inv(c, s) && j < |s.slots| && s.slots[j].used
    ensures var k := s.slots[j].conn;
      && k < |s.threads| && k < |s.announced| && s.announced[k] < |c.blocks|
      && s.threads[k].msg == c.blocks[s.announced[k]]
  {
    assert SlotMatch(c, s, j) && ThreadMatch(c, s, s.slots[j].conn);
  }

  lemma ScanKeepsOrClaims(c: Config, s: Transfer, i: nat, j: nat)
    requires ValidConfig(c) && Inv(c, s) && Enabled(c, s, Scan(i)) && j < |s.slots| && s.slots[j].used
    ensures var t, k := Apply(c, s, Scan(i)), s.slots[j].conn;
      && |t.slots| == |s.slots|
      && (t.slots[j] == s.slots[j]
          || (k < |s.announced| && s.announced[k] == i && i < |t.relays| && HasClaimed(t.relays[i], k)))
  {
    ConfigTiles(c);
    hide SlotMatch, ThreadMatch, RelayMatch, WiresOk, MappingOk, HandoffOk, Split;
    if s.relays[i].slot == j && s.slots[j].offset == c.blocks[i].offset {
      SlotIsMine(c, s, i, j);
    }
  }

  lemma OthersKeepUsedSlot(c: Config, s: Transfer, a: Action, j: nat)
    requires ValidConfig(c) && Enabled(c, s, a) && !a.Scan? && j < |s.slots| && s.slots[j].used
    ensures |Apply(c, s, a).slots| == |s.slots| && Apply(c, s, a).slots[j] == s.slots[j]
  {
  }

  /** The relay of block `b` is scanning the table for that slot's offset. */
  predicate Seeks(r: Relay, b: Block, slot: Slot) {
    r.Scanning? && b.offset == slot.offset
  }

  /** In-use slots never wait in vain: the relay for each is scanning for it. */
  lemma ParkedIsWanted(c: Config, s: Transfer, j: nat)
    requires ValidConfig(c) && Reachable(c, s) && j < |s.slots| && s.slots[j].used
    ensures exists i :: 0 <= i < |s.relays| && i < |c.blocks| && Seeks(s.relays[i], c.blocks[i], s.slots[j])
  {
    ReachableInv(c, s);
    assert SlotMatch(c, s, j);
    var k := s.slots[j].conn;
    assert ThreadMatch(c, s, k);
    assert Seeks(s.relays[s.announced[k]], c.blocks[s.announced[k]], s.slots[j]);
  }

  // ------------------------------------------------------------------- bytes

  /** In every run, whatever has been stored of a block so far is the file's, and the
      rest of that block is as it was at first. */
  lemma StoredSoFar(c: Config, s: Transfer, k: nat, x: nat)
    requires ValidConfig(c) && Reachable(c, s) && k < |s.threads| && HasCopied(s.threads[k].pc)
    requires InBlock(s.threads[k].msg, x)
    ensures x < |c.file| == |s.mapping| == |c.initial| && s.threads[k].got <= s.threads[k].msg.bs
    ensures s.mapping[x] == if x < s.threads[k].msg.offset + s.threads[k].got then c.file[x] else c.initial[x]
  {
    ReachableInv(c, s);
    ConfigTiles(c);
    NthInFile(c, s, k);
    ForwardedInBlock(c, s, k);
    assert ThreadMapped(c, s, k) && ThreadData(c, s, k);
  }

  /** While a relay runs, its `remain_size` is the bytes it has still to read: those in the
      sender's connection and those the sender has yet to write.  So it never starves. */
  lemma RelayAccounting(c: Config, s: Transfer, i: nat)
    requires ValidConfig(c) && Reachable(c, s) && IsBlock(c, s, i) && (s.relays[i].Reading? || s.relays[i].Tailing?)
    ensures s.relays[i].remain == |s.wires[i]| + (c.blocks[i].bs - Sent(s.senders[i], c.blocks[i].bs)) >= |s.wires[i]|
    ensures s.relays[i].Reading? && s.senders[i].Closed? ==> s.wires[i] != []
  {
    ReachableInv(c, s);
    ConfigTiles(c);
    assert BlockData(c, s, i);
  }

  /** A receive stores inside its own block, within the mapping, and nowhere else. */
  lemma StoresStayInBlock(c: Config, s: Transfer, k: nat, n: nat)
    requires ValidConfig(c) && Reachable(c, s) && Enabled(c, s, Receive(k, n))
    ensures var m, t := s.threads[k].msg, Apply(c, s, Receive(k, n));
      && m.offset + m.bs <= |s.mapping| == |t.mapping| && s.threads[k].got + n <= m.bs
      && forall x :: 0 <= x < |s.mapping| && !InBlock(m, x) ==> t.mapping[x] == s.mapping[x]
  {
    ReachableInv(c, s);
    ConfigTiles(c);
    SameFrame(c, s);
    ReceiveStores(c, s, k, n);
    hide Inv, Tiles, Overwrite, Split, Peek, Reachable, Poke;
    var m, at := s.threads[k].msg, s.threads[k].msg.offset + s.threads[k].got;
    forall x | 0 <= x < |s.mapping| && !InBlock(m, x) ensures Apply(c, s, Receive(k, n)).mapping[x] == s.mapping[x] {
      OtherBlocksKept(s.mapping, at, c.file[at..at + n], m, x);
    }
  }

  lemma SameFrame(c: Config, s: Transfer)
    requires ValidConfig(c) && Inv(c, s)
    ensures |s.mapping| == |c.file| == |c.initial|
  {
  }

  // -------------------------------------------------------------- end to end

  /** All blocks relayed and all receiving threads done. */
  ghost predicate AllDone(c: Config, s: Transfer) {
    && |s.relays| == |c.blocks| && (forall i :: 0 <= i < |s.relays| ==> s.relays[i].Finished?)
    && (forall k :: 0 <= k < |s.threads| ==> s.threads[k].pc.Done?)
  }

  /** A receive that fills the buffer or ends the block. */
  predicate FullReceive(c: Config, s: Transfer, a: Action) {
    a.Receive? && a.k < |s.threads| ==> a.n == c.recvBuf || s.threads[a.k].got + a.n == s.threads[a.k].msg.bs
  }

  ghost predicate AllReceivesFull(c: Config, s: Transfer, acts: seq<Action>)
    requires ValidConfig(c)
    decreases acts
  {
    acts != [] && Enabled(c, s, acts[0]) ==>
      FullReceive(c, s, acts[0]) && AllReceivesFull(c, Apply(c, s, acts[0]), acts[1..])
  }

  /** Every thread that is done has its whole block. */
  ghost predicate Complete(s: Transfer) {
    forall k :: 0 <= k < |s.threads| && s.threads[k].pc.Done? ==> s.threads[k].got == s.threads[k].msg.bs
  }

  /** Steps other than receives finish no thread, and leave finished ones as they are. */
  lemma NobodyFinishes(c: Config, s: Transfer, a: Action, k: nat)
    requires ValidConfig(c) && Enabled(c, s, a) && !a.Receive? && k < |Apply(c, s, a).threads|
    ensures var t := Apply(c, s, a);
      t.threads[k].pc.Done? ==>
        k < |s.threads| && s.threads[k].pc.Done? && t.threads[k].got == s.threads[k].got
        && (!s.threads[k].park.Absent? ==> t.threads[k].msg == s.threads[k].msg)
  {
    hide Split, Peek, Delivers;
    if a.Scan? || a.RelayRecv? || a.RelayTail? {
      RelayThreads(c, s, a);
      RelayLeavesThread(c, s, a, k);
    }
  }

  lemma RelayThreads(c: Config, s: Transfer, a: Action)
    requires ValidConfig(c) && Enabled(c, s, a) && (a.Scan? || a.RelayRecv? || a.RelayTail?)
    ensures |Apply(c, s, a).threads| == |s.threads|
  {
    hide Split, Peek, Delivers;
  }

  lemma CompleteStep(c: Config, s: Transfer, a: Action)
    requires ValidConfig(c) && Inv(c, s) && Enabled(c, s, a) && FullReceive(c, s, a) && Complete(s)
    ensures Complete(Apply(c, s, a))
  {
    hide Inv;
    if a.Receive? {
      ReceiveWithin(c, s, a.k, a.n);
    } else {
      var t := Apply(c, s, a);
      hide Apply, Enabled, FullReceive;
      forall k | 0 <= k < |t.threads| && t.threads[k].pc.Done? ensures t.threads[k].got == t.threads[k].msg.bs {
        NobodyFinishes(c, s, a, k);
        DoneKeepsMessage(c, s, k);
      }
    }
  }

  lemma ReceiveWithin(c: Config, s: Transfer, k: nat, n: nat)
    requires ValidConfig(c) && Inv(c, s) && Enabled(c, s, Receive(k, n))
    ensures s.threads[k].got + n <= s.threads[k].msg.bs
  {
    ConfigTiles(c);
    ReceiveStores(c, s, k, n);
  }

  /** A thread that stopped short stays short, whatever happens later. */
  lemma ShortIsFinal(c: Config, s: Transfer, a: Action, k: nat)
    requires ValidConfig(c) && Enabled(c, s, a) && k < |s.threads| && s.threads[k].pc.Done?
    requires !s.threads[k].park.Absent?
    ensures var t := Apply(c, s, a);
      && k < |t.threads| && t.threads[k].pc.Done?
      && t.threads[k].got == s.threads[k].got && t.threads[k].msg == s.threads[k].msg
  {
    hide Split, Peek, Delivers;
    if a.Scan? || a.RelayRecv? || a.RelayTail? {
      RelayLeavesThread(c, s, a, k);
    }
  }

  /** Relays change no more of a thread than its connection. */
  lemma RelayLeavesThread(c: Config, s: Transfer, a: Action, k: nat)
    requires ValidConfig(c) && Enabled(c, s, a) && (a.Scan? || a.RelayRecv? || a.RelayTail?) && k < |s.threads|
    ensures var t := Apply(c, s, a);
      && |t.threads| == |s.threads| && t.threads[k].pc == s.threads[k].pc
      && t.threads[k].got == s.threads[k].got && t.threads[k].msg == s.threads[k].msg
  {
    hide Split, Peek, Delivers;
  }

  lemma {:induction false} ShortForever(c: Config, s: Transfer, acts: seq<Action>, t: Transfer, k: nat)
    requires ValidConfig(c) && Inv(c, s) && Runs(c, s, acts, t) && k < |s.threads|
    requires s.threads[k].pc.Done? && s.threads[k].got < s.threads[k].msg.bs
    ensures !Complete(t)
    decreases acts
  {
    hide Inv, Enabled, Apply;
    if acts != [] {
      DoneKeepsMessage(c, s, k);
      ShortIsFinal(c, s, acts[0], k);
      InvStep(c, s, acts[0]);
      ShortForever(c, Apply(c, s, acts[0]), acts[1..], t, k);
    }
  }

  lemma DoneKeepsMessage(c: Config, s: Transfer, k: nat)
    requires ValidConfig(c) && Inv(c, s) && k < |s.threads| && s.threads[k].pc.Done?
    ensures !s.threads[k].park.Absent?
  {
    assert ThreadMatch(c, s, k);
  }

  lemma {:induction false} CompleteIffFull(c: Config, s: Transfer, acts: seq<Action>, t: Transfer)
    requires ValidConfig(c) && Inv(c, s) && Complete(s) && Runs(c, s, acts, t)
    ensures Complete(t) <==> AllReceivesFull(c, s, acts)
    decreases acts
  {
    hide Inv, Enabled, Apply, Complete;
    if acts != [] {
      var a := acts[0];
      InvStep(c, s, a);
      if FullReceive(c, s, a) {
        CompleteStep(c, s, a);
        CompleteIffFull(c, Apply(c, s, a), acts[1..], t);
      } else {
        ShortReceiveStops(c, s, a);
        ShortForever(c, Apply(c, s, a), acts[1..], t, a.k);
      }
    }
  }

  lemma ShortReceiveStops(c: Config, s: Transfer, a: Action)
    requires ValidConfig(c) && Inv(c, s) && Enabled(c, s, a) && !FullReceive(c, s, a)
    ensures var t := Apply(c, s, a);
      a.k < |t.threads| && t.threads[a.k].pc.Done? && t.threads[a.k].got < t.threads[a.k].msg.bs
  {
    hide Inv;
    ReceiveWithin(c, s, a.k, a.n);
  }

  /** The bytes that no receive has stored happen to be there already. */
  ghost predicate MissingAgree(c: Config, s: Transfer) {
    forall k, x | 0 <= k < |s.threads| && 0 <= x < |c.file| && x < |c.initial| ::
      InBlock(s.threads[k].msg, x) && x >= s.threads[k].msg.offset + s.threads[k].got ==> c.file[x] == c.initial[x]
  }

  lemma MessagesKnown(c: Config, s: Transfer, k: nat)
    requires ValidConfig(c) && Inv(c, s) && k < |s.threads| && s.threads[k].pc.Done?
    ensures |s.mapping| == |c.file| == |c.initial|
    ensures ThreadMapped(c, s, k) && s.threads[k].msg == Nth(c, s.announced, k)
    ensures var b := s.threads[k].msg; b.offset + b.bs <= |c.file|
  {
    ConfigTiles(c);
    NthInFile(c, s, k);
  }

  /** Which thread has byte x of the file in its block. */
  lemma WhoHas(c: Config, s: Transfer, x: nat) returns (k: nat)
    requires ValidConfig(c) && Inv(c, s) && AllDone(c, s) && x < |c.file|
    ensures k < |s.threads| && InBlock(s.threads[k].msg, x)
  {
    ConfigTiles(c);
    assert Covered(c.blocks, x);
    var i :| 0 <= i < |c.blocks| && InBlock(c.blocks[i], x);
    assert RelayMatch(s, i);
    k := s.relays[i].conn;
  }

  lemma CopyIsFileIff(c: Config, s: Transfer)
    requires ValidConfig(c) && Inv(c, s) && AllDone(c, s)
    ensures s.mapping == c.file <==> MissingAgree(c, s)
  {
    SameFrame(c, s);
    hide Inv;
    if MissingAgree(c, s) {
      forall x | 0 <= x < |c.file| ensures s.mapping[x] == c.file[x] {
        var k := WhoHas(c, s, x);
        MessagesKnown(c, s, k);
      }
    }
    if s.mapping == c.file {
      forall k, x | 0 <= k < |s.threads| && 0 <= x < |c.file| && x < |c.initial|
        && InBlock(s.threads[k].msg, x) && x >= s.threads[k].msg.offset + s.threads[k].got
        ensures c.file[x] == c.initial[x]
      {
        MessagesKnown(c, s, k);
      }
    }
  }

  /** End to end, for every file and every cutting, every interleaving of all the threads
      and every fragmentation at the relay.  Once all blocks are relayed and received the
      copy is the file, byte for byte, if every receive filled its buffer or ended its
      block; in general it is the file exactly if the bytes that were missed agree. */
  lemma EndToEnd(c: Config, acts: seq<Action>, s: Transfer)
    requires ValidConfig(c) && Runs(c, Start(c), acts, s) && AllDone(c, s)
    ensures AllReceivesFull(c, Start(c), acts) ==> s.mapping == c.file
    ensures AllReceivesFull(c, Start(c), acts) <==> Complete(s)
    ensures s.mapping == c.file <==> MissingAgree(c, s)
  {
    hide Inv;
    StartInv(c);
    InvRuns(c, Start(c), acts, s);
    CompleteIffFull(c, Start(c), acts, s);
    CopyIsFileIff(c, s);
  }
}
