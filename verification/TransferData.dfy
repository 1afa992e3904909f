/** The bytes on their way: what is in each connection and in the receiver's mapping. */
module TransferData {
  import opened Division
  import opened Streams
  import opened Blocks
  import opened TransferSystem
  import opened TransferHandoff
  import opened TransferMatching

  /** How much of a block its sender has written. */
  function Sent(s: Sender, bs: nat): int {
    match s
    case Ready => 0
    case Writing(_, _, left) => bs - left
    case Closed => bs
  }

  /** How much of a block its relay has forwarded. */
  function Forwarded(r: Relay, bs: nat): int {
    match r
    case Reading(_, remain) => bs - remain
    case Tailing(_, remain) => bs - remain
    case Finished(_) => bs
    case _ => 0
  }

  /** A block on its way from the sender to the relay. */
  ghost predicate BlockData(c: Config, s: Transfer, i: nat)
    requires i < |c.blocks| && i < |s.senders| && i < |s.wires| && i < |s.relays| && c.sendSize > 0
  {
    var b, w, r := c.blocks[i], s.senders[i], s.relays[i];
    && (w.Writing? ==>
          && w.fp == b.offset + b.bs - w.bs && 0 <= w.bs <= b.bs
          && w.i <= b.bs / c.sendSize && w.bs / c.sendSize == b.bs / c.sendSize - w.i)
    && (r.Reading? ==> r.remain > 0)
    && 0 <= Forwarded(r, b.bs) <= Sent(w, b.bs) <= b.bs
    && s.wires[i] == Peek(c.file, b.offset + Forwarded(r, b.bs), Sent(w, b.bs) - Forwarded(r, b.bs))
  }

  /** A block on its way from the relay to the receiver. */
  ghost predicate ThreadData(c: Config, s: Transfer, k: nat)
    requires k < |s.threads|
  {
    var r, b, f := s.threads[k], Nth(c, s.announced, k), Forwarded(RelayOf(s, k), Nth(c, s.announced, k).bs);
    && r.got <= f && (BeforeConnect(r.pc) ==> r.got == 0)
    && r.wire == Peek(c.file, b.offset + r.got, f - r.got)
    && (r.closed <==> RelayOf(s, k).Finished?)
  }

  ghost predicate WiresOk(c: Config, s: Transfer)
    requires c.sendSize > 0
  {
    && |s.senders| == |s.wires| == |s.relays| == |c.blocks|
    && (forall i :: 0 <= i < |c.blocks| ==> BlockData(c, s, i))
    && (forall k :: 0 <= k < |s.threads| ==> ThreadData(c, s, k))
  }

  lemma StartWires(c: Config)
    requires ValidConfig(c)
    ensures WiresOk(c, Start(c))
  {
  }

  lemma PeekJoin(memory: seq<byte>, at: nat, n: nat, m: nat)
    requires at + n + m <= |memory|
    ensures Peek(memory, at, n) + Peek(memory, at + n, m) == Peek(memory, at, n + m)
  {
  }

  lemma PeekCut(memory: seq<byte>, at: nat, n: nat, m: nat)
    requires at + n <= |memory| && m <= n
    ensures Peek(memory, at, n)[m..] == Peek(memory, at + m, n - m)
    ensures Peek(memory, at, n)[..m] == Peek(memory, at, m)
  {
  }

  /** The block of an announcement lies within the file. */
  lemma NthInFile(c: Config, s: Transfer, k: nat)
    requires AnnouncedOk(c, s) && Tiles(c.blocks, 0, |c.file|) && k < |s.announced|
    ensures var b := Nth(c, s.announced, k); b.bs > 0 && b.offset + b.bs <= |c.file| && b == c.blocks[s.announced[k]]
  {
  }

  /** Block i is as it was. */
  ghost predicate SameBlock(s: Transfer, t: Transfer, i: nat)
    requires i < |s.senders| && i < |t.senders| && i < |s.relays| && i < |t.relays| && i < |s.wires| && i < |t.wires|
  {
    t.senders[i] == s.senders[i] && t.relays[i] == s.relays[i] && t.wires[i] == s.wires[i]
  }

  /** Receiver k, its block and its relay are as they were. */
  ghost predicate SameThread(c: Config, s: Transfer, t: Transfer, k: nat)
    requires k < |t.threads|
  {
    && k < |s.threads| && t.threads[k] == s.threads[k]
    && RelayOf(t, k) == RelayOf(s, k) && Nth(c, t.announced, k) == Nth(c, s.announced, k)
  }

  /** Whatever is as it was is still in order. */
  lemma WiresFrame(c: Config, s: Transfer, t: Transfer)
    requires c.sendSize > 0 && WiresOk(c, s)
    requires |t.senders| == |t.wires| == |t.relays| == |c.blocks|
    requires forall i :: 0 <= i < |c.blocks| ==> SameBlock(s, t, i) || BlockData(c, t, i)
    requires forall k :: 0 <= k < |t.threads| ==> SameThread(c, s, t, k) || ThreadData(c, t, k)
    ensures WiresOk(c, t)
  {
    hide Peek, Nth;
    forall i | 0 <= i < |c.blocks| ensures BlockData(c, t, i) {
      assert BlockData(c, s, i) && (SameBlock(s, t, i) || BlockData(c, t, i));
    }
    forall k | 0 <= k < |t.threads| ensures ThreadData(c, t, k) {
      assert (SameThread(c, s, t, k) || ThreadData(c, t, k)) && (k < |s.threads| ==> ThreadData(c, s, k));
    }
  }

  /** Each write appends the next bytes of the block. */
  lemma WriteInOrder(c: Config, s: Transfer, i: nat)
    requires ValidConfig(c) && IsBlock(c, s, i) && s.senders[i].Writing? && BlockData(c, s, i)
    requires c.blocks[i].offset + c.blocks[i].bs <= |c.file|
    ensures BlockData(c, AfterWrite(c, s, i), i)
  {
    hide Peek, Split;
    var b, w, f := c.blocks[i], s.senders[i], Forwarded(s.relays[i], c.blocks[i].bs);
    var n := if w.i < b.bs / c.sendSize then c.sendSize else w.bs;
    if w.i < b.bs / c.sendSize {
      WholeLeft(w.bs, c.sendSize);
      DivStep(w.bs, c.sendSize);
    }
    PeekJoin(c.file, b.offset + f, Sent(w, b.bs) - f, n);
    assert AfterWrite(c, s, i).wires[i] == s.wires[i] + Peek(c.file, w.fp, n);
  }

  /** A sender's step: only its own block is concerned. */
  lemma WiresSenderFrame(c: Config, s: Transfer, t: Transfer, i: nat)
    requires c.sendSize > 0 && WiresOk(c, s) && AnnouncedOk(c, s) && i < |c.blocks|
    requires i < |t.senders| == |t.wires| == |t.relays| == |c.blocks| && BlockData(c, t, i)
    requires t.senders == s.senders[i := t.senders[i]] && t.wires == s.wires[i := t.wires[i]]
    requires t.relays == s.relays || (t.relays == s.relays[i := t.relays[i]] && !IsAnnounced(s.relays[i]))
    requires t.threads == s.threads && t.announced == s.announced && |s.threads| <= |s.announced|
    ensures WiresOk(c, t)
  {
    hide BlockData, ThreadData;
    forall k | 0 <= k < |t.threads| ensures SameThread(c, s, t, k) {
      assert s.announced[k] in s.announced;
    }
    WiresFrame(c, s, t);
  }

  lemma WiresConnect(c: Config, s: Transfer, i: nat)
    requires ValidConfig(c) && Enabled(c, s, Connect(i))
    requires WiresOk(c, s) && AnnouncedOk(c, s) && |s.threads| <= |s.announced|
    ensures WiresOk(c, Apply(c, s, Connect(i)))
  {
    hide Split, Peek, ThreadData;
    var t := Apply(c, s, Connect(i));
    assert BlockData(c, s, i);
    assert BlockData(c, t, i);
    WiresSenderFrame(c, s, t, i);
  }

  lemma WiresWrite(c: Config, s: Transfer, i: nat)
    requires ValidConfig(c) && Enabled(c, s, Write(i)) && c.blocks[i].offset + c.blocks[i].bs <= |c.file|
    requires WiresOk(c, s) && AnnouncedOk(c, s) && |s.threads| <= |s.announced|
    ensures WiresOk(c, Apply(c, s, Write(i)))
  {
    hide Split, Peek, BlockData, ThreadData;
    assert BlockData(c, s, i);
    WriteInOrder(c, s, i);
    WiresSenderFrame(c, s, AfterWrite(c, s, i), i);
  }

  lemma WiresAnnounce(c: Config, s: Transfer, i: nat)
    requires ValidConfig(c) && Enabled(c, s, Announce(i))
    requires WiresOk(c, s) && AnnouncedOk(c, s) && MatchingOk(c, s)
    ensures WiresOk(c, Apply(c, s, Announce(i)))
  {
    var t := Apply(c, s, Announce(i));
    assert BlockData(c, s, i) && BlockData(c, t, i);
    forall k | 0 <= k < |t.threads| ensures SameThread(c, s, t, k) {
      assert s.announced[k] in s.announced;
    }
    WiresFrame(c, s, t);
  }

  lemma WiresSpawn(c: Config, s: Transfer)
    requires ValidConfig(c) && Enabled(c, s, MainSpawn)
    requires WiresOk(c, s) && MatchingOk(c, s) && |s.threads| < |s.announced|
    ensures WiresOk(c, Apply(c, s, MainSpawn))
  {
    var t := Apply(c, s, MainSpawn);
    assert RelayOf(s, |s.threads|).Scanning? && RelayOf(t, |s.threads|) == RelayOf(s, |s.threads|);
    assert ThreadData(c, t, |s.threads|);
    forall i | 0 <= i < |c.blocks| ensures BlockData(c, t, i) {
      assert BlockData(c, s, i);
    }
    WiresFrame(c, s, t);
  }

  /** A thread step outside its read loop. */
  lemma WiresThread(c: Config, s: Transfer, t: Transfer, k: nat)
    requires c.sendSize > 0 && WiresOk(c, s)
    requires t.senders == s.senders && t.wires == s.wires && t.relays == s.relays && t.announced == s.announced
    requires t.threads == s.threads
      || (k < |s.threads| == |t.threads| && t.threads == s.threads[k := t.threads[k]]
          && t.threads[k].got == s.threads[k].got
          && t.threads[k].wire == s.threads[k].wire && t.threads[k].closed == s.threads[k].closed
          && (BeforeConnect(t.threads[k].pc) ==> BeforeConnect(s.threads[k].pc)))
    ensures WiresOk(c, t)
  {
    forall i | 0 <= i < |c.blocks| ensures BlockData(c, t, i) {
      assert BlockData(c, s, i);
    }
    forall v | 0 <= v < |t.threads| ensures ThreadData(c, t, v) {
      assert ThreadData(c, s, v);
    }
  }

  lemma WiresReceive(c: Config, s: Transfer, k: nat, n: nat)
    requires ValidConfig(c) && Enabled(c, s, Receive(k, n)) && Tiles(c.blocks, 0, |c.file|)
    requires WiresOk(c, s) && AnnouncedOk(c, s) && MatchingOk(c, s)
    ensures WiresOk(c, Apply(c, s, Receive(k, n)))
  {
    hide Peek, Split;
    var t := Apply(c, s, Receive(k, n));
    assert ThreadData(c, s, k) && ThreadMatch(c, s, k);
    ForwardedInBlock(c, s, k);
    var b, r, f := Nth(c, s.announced, k), s.threads[k], Forwarded(RelayOf(s, k), Nth(c, s.announced, k).bs);
    PeekCut(c.file, b.offset + r.got, f - r.got, n);
    assert ThreadData(c, t, k);
    forall i | 0 <= i < |c.blocks| ensures BlockData(c, t, i) {
      assert BlockData(c, s, i);
    }
    WiresFrame(c, s, t);
  }

  lemma ForwardedInBlock(c: Config, s: Transfer, k: nat)
    requires c.sendSize > 0 && WiresOk(c, s) && AnnouncedOk(c, s) && Tiles(c.blocks, 0, |c.file|) && k < |s.announced|
    ensures var b := Nth(c, s.announced, k);
      0 <= Forwarded(RelayOf(s, k), b.bs) <= b.bs && b.offset + b.bs <= |c.file| && b.bs > 0
  {
    NthInFile(c, s, k);
    assert BlockData(c, s, s.announced[k]);
  }

  /** Looking at a slot, or claiming what is in it, forwards nothing yet. */
  lemma WiresScan(c: Config, s: Transfer, i: nat)
    requires ValidConfig(c) && Enabled(c, s, Scan(i)) && Tiles(c.blocks, 0, |c.file|)
    requires WiresOk(c, s) && AnnouncedOk(c, s) && MatchingOk(c, s)
    ensures WiresOk(c, Apply(c, s, Scan(i)))
  {
    hide Peek, Split;
    var t := Apply(c, s, Scan(i));
    assert BlockData(c, s, i) && c.blocks[i].bs > 0;
    var slot := s.slots[s.relays[i].slot];
    if slot.used && slot.offset == c.blocks[i].offset {
      SlotIsMine(c, s, i, s.relays[i].slot);
      assert ThreadData(c, s, slot.conn) && ThreadData(c, t, slot.conn);
    }
    assert BlockData(c, t, i);
    forall k | 0 <= k < |t.threads| ensures ThreadData(c, t, k) {
      assert ThreadData(c, s, k);
    }
    ScanFrame(c, s, t, i);
  }

  lemma ScanFrame(c: Config, s: Transfer, t: Transfer, i: nat)
    requires c.sendSize > 0 && WiresOk(c, s) && i < |s.relays| == |t.relays|
    requires t.senders == s.senders && t.wires == s.wires && t.relays == s.relays[i := t.relays[i]]
    requires BlockData(c, t, i) && forall k :: 0 <= k < |t.threads| ==> ThreadData(c, t, k)
    ensures WiresOk(c, t)
  {
    hide BlockData, ThreadData;
    forall x | 0 <= x < |c.blocks| && x != i ensures SameBlock(s, t, x) {
    }
    WiresFrame(c, s, t);
  }

  /** Receiver `r` after `bytes` were forwarded to it. */
  function Fed(r: Receiver, bytes: seq<byte>, closed: bool): Receiver {
    r.(wire := r.wire + bytes, closed := closed)
  }

  /** The sender's end of one relay receive. */
  lemma ForwardTakes(c: Config, s: Transfer, i: nat, n: nat, t: Transfer)
    requires ValidConfig(c) && IsBlock(c, s, i) && BlockData(c, s, i) && n <= |s.wires[i]|
    requires c.blocks[i].offset + c.blocks[i].bs <= |c.file|
    requires i < |t.relays| && t.senders == s.senders && t.wires == s.wires[i := s.wires[i][n..]]
    requires Forwarded(t.relays[i], c.blocks[i].bs) == Forwarded(s.relays[i], c.blocks[i].bs) + n
    requires t.relays[i].Reading? ==> t.relays[i].remain > 0
    ensures BlockData(c, t, i)
  {
    var b, w, f := c.blocks[i], s.senders[i], Forwarded(s.relays[i], c.blocks[i].bs);
    PeekCut(c.file, b.offset + f, Sent(w, b.bs) - f, n);
  }

  /** The receiver's end of it. */
  lemma ForwardGives(c: Config, s: Transfer, i: nat, k: nat, n: nat, t: Transfer)
    requires ValidConfig(c) && IsBlock(c, s, i) && BlockData(c, s, i) && n <= |s.wires[i]|
    requires c.blocks[i].offset + c.blocks[i].bs <= |c.file|
    requires k < |s.threads| && k < |s.announced| && s.announced[k] == i && ThreadData(c, s, k)
    requires !s.relays[i].Finished?
    requires t.announced == s.announced && i < |t.relays|
    requires Forwarded(t.relays[i], c.blocks[i].bs) == Forwarded(s.relays[i], c.blocks[i].bs) + n
    requires t.threads == s.threads[k := Fed(s.threads[k], s.wires[i][..n], t.relays[i].Finished?)]
    ensures ThreadData(c, t, k)
  {
    hide Peek, Split;
    var b, w, r, f := c.blocks[i], s.senders[i], s.threads[k], Forwarded(s.relays[i], c.blocks[i].bs);
    PeekCut(c.file, b.offset + f, Sent(w, b.bs) - f, n);
    PeekJoin(c.file, b.offset + r.got, f - r.got, n);
  }

  /** One receive of the relay moves bytes from sender i's connection to receiver k's. */
  lemma WiresForward(c: Config, s: Transfer, i: nat, k: nat, n: nat, t: Transfer)
    requires ValidConfig(c) && IsBlock(c, s, i) && HasClaimed(s.relays[i], k) && !s.relays[i].Finished?
    requires n <= |s.wires[i]| && Tiles(c.blocks, 0, |c.file|)
    requires WiresOk(c, s) && AnnouncedOk(c, s) && MatchingOk(c, s)
    requires i < |t.relays| && t.senders == s.senders && t.announced == s.announced
    requires t.wires == s.wires[i := s.wires[i][n..]] && t.relays == s.relays[i := t.relays[i]]
    requires Forwarded(t.relays[i], c.blocks[i].bs) == Forwarded(s.relays[i], c.blocks[i].bs) + n
    requires t.relays[i].Reading? ==> t.relays[i].remain > 0
    requires k < |s.threads|
    requires t.threads == s.threads[k := Fed(s.threads[k], s.wires[i][..n], t.relays[i].Finished?)]
    ensures WiresOk(c, t)
  {
    hide BlockData, ThreadData;
    assert RelayMatch(s, i) && BlockData(c, s, i) && ThreadData(c, s, k);
    ForwardTakes(c, s, i, n, t);
    ForwardGives(c, s, i, k, n, t);
    forall v | 0 <= v < |t.threads| && v != k ensures SameThread(c, s, t, v) {
      assert s.announced[v] != i;
    }
    WiresFrame(c, s, t);
  }

  lemma WiresRelay(c: Config, s: Transfer, a: Action)
    requires ValidConfig(c) && Enabled(c, s, a) && (a.RelayRecv? || a.RelayTail?) && Tiles(c.blocks, 0, |c.file|)
    requires WiresOk(c, s) && AnnouncedOk(c, s) && MatchingOk(c, s)
    ensures WiresOk(c, Apply(c, s, a))
  {
    var k := s.relays[a.i].conn;
    RelayBusy(c, s, a.i);
    hide Tiles, WiresOk, AnnouncedOk, MatchingOk, Split, Peek, Apply;
    RelayShape(c, s, a);
    WiresForward(c, s, a.i, k, a.n, Apply(c, s, a));
  }

  /** While a relay runs, its receiver's connection is open and it has not read too much. */
  lemma RelayBusy(c: Config, s: Transfer, i: nat)
    requires ValidConfig(c) && IsBlock(c, s, i) && (s.relays[i].Reading? || s.relays[i].Tailing?)
    requires WiresOk(c, s) && AnnouncedOk(c, s) && MatchingOk(c, s)
    ensures s.relays[i].conn < |s.threads| && !s.threads[s.relays[i].conn].closed && |s.wires[i]| <= s.relays[i].remain
  {
    hide Split, ThreadMatch;
    assert RelayMatch(s, i) && BlockData(c, s, i) && ThreadData(c, s, s.relays[i].conn);
  }

  /** What a receive of the relay changes. */
  lemma RelayShape(c: Config, s: Transfer, a: Action)
    requires ValidConfig(c) && Enabled(c, s, a) && (a.RelayRecv? || a.RelayTail?)
    requires s.relays[a.i].conn < |s.threads| && !s.threads[s.relays[a.i].conn].closed
    requires s.relays[a.i].remain - a.n >= 0
    ensures var t, k := Apply(c, s, a), s.relays[a.i].conn;
      && t == s.(wires := s.wires[a.i := s.wires[a.i][a.n..]], relays := t.relays, threads := t.threads)
      && |t.relays| == |s.relays| && t.relays == s.relays[a.i := t.relays[a.i]]
      && HasClaimed(t.relays[a.i], k) && (t.relays[a.i].Reading? ==> t.relays[a.i].remain > 0)
      && (a.RelayTail? ==> !t.relays[a.i].Tailing?)
      && s.relays[a.i].remain - a.n == (if t.relays[a.i].Finished? then 0 else t.relays[a.i].remain)
      && t.threads == s.threads[k := Fed(s.threads[k], s.wires[a.i][..a.n], t.relays[a.i].Finished?)]
  {
  }

  lemma MoreAnnounced(c: Config, s: Transfer)
    requires MatchingOk(c, s)
    ensures |s.threads| <= |s.announced|
  {
  }

  lemma BlocksInFile(c: Config, s: Transfer)
    requires Tiles(c.blocks, 0, |c.file|)
    ensures forall i :: 0 <= i < |c.blocks| ==> c.blocks[i].offset + c.blocks[i].bs <= |c.file|
  {
  }

  lemma WiresStep(c: Config, s: Transfer, a: Action)
    requires ValidConfig(c) && Enabled(c, s, a) && Tiles(c.blocks, 0, |c.file|)
    requires WiresOk(c, s) && AnnouncedOk(c, s) && MatchingOk(c, s) && HandoffOk(c, s)
    ensures WiresOk(c, Apply(c, s, a))
  {
    MoreAnnounced(c, s);
    BlocksInFile(c, s);
    MatchingFacts(c, s);
    hide WiresOk, Tiles, AnnouncedOk, MatchingOk, HandoffOk, Split, Peek, Poke;
    match a
    case Connect(i) => WiresConnect(c, s, i);
    case Write(i) => WiresWrite(c, s, i);
    case Announce(i) => WiresAnnounce(c, s, i);
    case MainSpawn => WiresSpawn(c, s);
    case Scan(i) => WiresScan(c, s, i);
    case RelayRecv(i, n) => WiresRelay(c, s, a);
    case RelayTail(i, n) => WiresRelay(c, s, a);
    case Receive(k, n) => WiresReceive(c, s, k, n);
    case _ => WiresQuiet(c, s, a);
  }

  /** Steps that move no bytes. */
  lemma WiresQuiet(c: Config, s: Transfer, a: Action)
    requires ValidConfig(c) && Enabled(c, s, a) && WiresOk(c, s)
    requires a.MainRecv? || a.MainWait? || a.MainCopy? || a.MainPost?
      || a.ThreadWait? || a.ThreadCopy? || a.ThreadPost? || a.ThreadConnect? || a.ParkStep?
    ensures WiresOk(c, Apply(c, s, a))
  {
    hide WiresOk, Split, Peek, Poke;
    var ofThread := a.ThreadWait? || a.ThreadCopy? || a.ThreadPost? || a.ThreadConnect? || a.ParkStep?;
    WiresThread(c, s, Apply(c, s, a), if ofThread then a.k else 0);
  }

  // ----------------------------------------------------------------- mapping

  /** Thread k's block in the mapping: what it has stored is the file's, the rest is as at first. */
  ghost predicate ThreadMapped(c: Config, s: Transfer, k: nat)
    requires k < |s.threads| && |s.mapping| == |c.file| == |c.initial|
  {
    var b := Nth(c, s.announced, k);
    b.offset + b.bs <= |c.file| ==>
      forall x :: b.offset <= x < b.offset + b.bs ==>
        s.mapping[x] == if x < b.offset + s.threads[k].got then c.file[x] else c.initial[x]
  }

  /** Nothing has been stored in the block of announcement k, if no thread has it. */
  predicate Assigned(s: Transfer, i: nat)
    requires |s.threads| <= |s.announced|
  {
    i in s.announced[..|s.threads|]
  }

  ghost predicate Untouched(c: Config, s: Transfer, b: Block)
    requires |s.mapping| == |c.initial|
  {
    b.offset + b.bs <= |c.initial| ==> s.mapping[b.offset..b.offset + b.bs] == c.initial[b.offset..b.offset + b.bs]
  }

  ghost predicate MappingOk(c: Config, s: Transfer) {
    && |s.mapping| == |c.file| == |c.initial| && |s.threads| <= |s.announced|
    && (forall k :: 0 <= k < |s.threads| ==> ThreadMapped(c, s, k))
    && (forall i :: 0 <= i < |c.blocks| && !Assigned(s, i) ==> Untouched(c, s, c.blocks[i]))
  }

  /** Steps that store nothing and start no thread. */
  lemma MappingNeutral(c: Config, s: Transfer, t: Transfer)
    requires MappingOk(c, s) && t.mapping == s.mapping && |t.threads| == |s.threads|
    requires t.announced == s.announced || (exists i :: t.announced == s.announced + [i])
    requires forall k :: 0 <= k < |s.threads| ==> t.threads[k].got == s.threads[k].got
    ensures MappingOk(c, t)
  {
    assert t.announced[..|t.threads|] == s.announced[..|s.threads|];
    forall k | 0 <= k < |t.threads| ensures ThreadMapped(c, t, k) {
      assert ThreadMapped(c, s, k);
      assert Nth(c, t.announced, k) == Nth(c, s.announced, k);
    }
  }

  lemma MappingSpawn(c: Config, s: Transfer)
    requires ValidConfig(c) && Enabled(c, s, MainSpawn)
    requires MappingOk(c, s) && AnnouncedOk(c, s) && |s.threads| < |s.announced|
    ensures MappingOk(c, Apply(c, s, MainSpawn))
  {
    var t := Apply(c, s, MainSpawn);
    var n := |s.threads|;
    assert t.announced[..n + 1] == s.announced[..n] + [s.announced[n]];
    assert !Assigned(s, s.announced[n]) && Untouched(c, s, c.blocks[s.announced[n]]);
    forall k | 0 <= k < |t.threads| ensures ThreadMapped(c, t, k) {
      if k < n {
        assert ThreadMapped(c, s, k);
      } else {
        var b := Nth(c, t.announced, n);
        if b.offset + b.bs <= |c.file| {
          forall x | b.offset <= x < b.offset + b.bs ensures s.mapping[x] == c.initial[x] {
            var y := x - b.offset;
            assert s.mapping[b.offset..b.offset + b.bs][y] == c.initial[b.offset..b.offset + b.bs][y];
          }
        }
      }
    }
    forall i | 0 <= i < |c.blocks| && !Assigned(t, i) ensures Untouched(c, t, c.blocks[i]) {
      assert !Assigned(s, i);
    }
  }

  /** What thread k has on its wire, in terms of its announcement. */
  lemma WireOfThread(c: Config, s: Transfer, k: nat)
    requires ValidConfig(c) && k < |s.threads| && s.threads[k].pc.Receiving? && Tiles(c.blocks, 0, |c.file|)
    requires WiresOk(c, s) && AnnouncedOk(c, s) && MatchingOk(c, s) && HandoffOk(c, s)
    ensures var b, r := Nth(c, s.announced, k), s.threads[k];
      var f := Forwarded(RelayOf(s, k), b.bs);
      && r.msg == b && r.got <= f <= b.bs && b.offset + b.bs <= |c.file|
      && r.wire == Peek(c.file, b.offset + r.got, f - r.got)
  {
    hide Split, Peek, TokenOk, BlockData, Tiles, AnnouncedOk;
    MoreAnnounced(c, s);
    ForwardedInBlock(c, s, k);
    assert ThreadData(c, s, k);
  }

  /** A receive stores the file's own bytes, inside its own block. */
  lemma ReceiveStores(c: Config, s: Transfer, k: nat, n: nat)
    requires ValidConfig(c) && Enabled(c, s, Receive(k, n)) && Tiles(c.blocks, 0, |c.file|)
    requires WiresOk(c, s) && AnnouncedOk(c, s) && MatchingOk(c, s) && HandoffOk(c, s)
    requires |s.mapping| == |c.file|
    ensures var b, r := Nth(c, s.announced, k), s.threads[k];
      && r.msg == b && r.got + n <= b.bs && b.offset + b.bs <= |c.file|
      && var at := b.offset + r.got;
      && r.wire[..n] == c.file[at..at + n]
      && Apply(c, s, Receive(k, n)).mapping == Overwrite(s.mapping, at, c.file[at..at + n])
  {
    WireOfThread(c, s, k);
    hide WiresOk, AnnouncedOk, MatchingOk, HandoffOk, Tiles, Split, Overwrite;
    var b, r, f := Nth(c, s.announced, k), s.threads[k], Forwarded(RelayOf(s, k), Nth(c, s.announced, k).bs);
    PeekCut(c.file, b.offset + r.got, f - r.got, n);
  }

  /** Storing inside block `b` leaves the other blocks' bytes alone. */
  lemma OtherBlocksKept(base: seq<byte>, at: nat, bytes: seq<byte>, b: Block, x: nat)
    requires b.offset <= at && at + |bytes| <= b.offset + b.bs <= |base| && x < |base| && !InBlock(b, x)
    ensures Overwrite(base, at, bytes)[x] == base[x]
  {
  }

  /** The storing thread's own block. */
  lemma OwnBlockMapped(c: Config, s: Transfer, k: nat, n: nat, t: Transfer)
    requires k < |s.threads| == |t.threads| && |s.mapping| == |c.file| == |c.initial| && ThreadMapped(c, s, k)
    requires t.announced == s.announced && t.threads[k].got == s.threads[k].got + n
    requires var b := Nth(c, s.announced, k);
      && b.offset + b.bs <= |c.file| && s.threads[k].got + n <= b.bs
      && var at := b.offset + s.threads[k].got;
      t.mapping == Overwrite(s.mapping, at, c.file[at..at + n])
    ensures ThreadMapped(c, t, k)
  {
  }

  lemma MappingReceive(c: Config, s: Transfer, k: nat, n: nat)
    requires ValidConfig(c) && Enabled(c, s, Receive(k, n)) && Tiles(c.blocks, 0, |c.file|)
    requires MappingOk(c, s) && WiresOk(c, s) && AnnouncedOk(c, s) && MatchingOk(c, s) && HandoffOk(c, s)
    ensures MappingOk(c, Apply(c, s, Receive(k, n)))
  {
    hide WiresOk, MatchingOk, HandoffOk, Overwrite, Split;
    ReceiveStores(c, s, k, n);
    NthInFile(c, s, k);
    var t := Apply(c, s, Receive(k, n));
    var b, at := Nth(c, s.announced, k), Nth(c, s.announced, k).offset + s.threads[k].got;
    forall x | 0 <= x < |t.mapping| && !InBlock(b, x) ensures t.mapping[x] == s.mapping[x] {
      OtherBlocksKept(s.mapping, at, c.file[at..at + n], b, x);
    }
    OwnBlockMapped(c, s, k, n, t);
    forall v | 0 <= v < |t.threads| && v != k ensures ThreadMapped(c, t, v) {
      assert ThreadMapped(c, s, v);
      NthInFile(c, s, v);
      assert s.announced[v] != s.announced[k];
    }
    forall i | 0 <= i < |c.blocks| && !Assigned(t, i) ensures Untouched(c, t, c.blocks[i]) {
      assert !Assigned(s, i) && Untouched(c, s, c.blocks[i]);
      assert s.announced[..|s.threads|][k] == s.announced[k];
    }
  }

  /** A step of a relay stores nothing. */
  lemma MappingRelay(c: Config, s: Transfer, a: Action)
    requires ValidConfig(c) && Enabled(c, s, a) && (a.Scan? || a.RelayRecv? || a.RelayTail?)
    requires MappingOk(c, s)
    ensures MappingOk(c, Apply(c, s, a))
  {
    hide MappingOk;
    MappingNeutral(c, s, Apply(c, s, a));
  }

  lemma MappingStep(c: Config, s: Transfer, a: Action)
    requires ValidConfig(c) && Enabled(c, s, a) && Tiles(c.blocks, 0, |c.file|)
    requires MappingOk(c, s) && WiresOk(c, s) && AnnouncedOk(c, s) && MatchingOk(c, s) && HandoffOk(c, s)
    ensures MappingOk(c, Apply(c, s, a))
  {
    hide MappingOk, WiresOk, Tiles, AnnouncedOk, MatchingOk, TokenOk, Split, Poke, Peek;
    match a
    case MainSpawn => MappingSpawn(c, s);
    case Receive(k, n) => MappingReceive(c, s, k, n);
    case Scan(i) => MappingRelay(c, s, a);
    case RelayRecv(i, n) => MappingRelay(c, s, a);
    case RelayTail(i, n) => MappingRelay(c, s, a);
    case _ => MappingNeutral(c, s, Apply(c, s, a));
  }
}
