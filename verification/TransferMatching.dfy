/** The shared table: every connection is parked once, claimed once, and only by the
    relay whose block its receiver was told about. */
module TransferMatching {
  import opened Blocks
  import opened TransferSystem
  import opened TransferHandoff

  /** The relay has claimed connection k. */
  predicate HasClaimed(r: Relay, k: nat) {
    (r.Reading? || r.Tailing? || r.Finished?) && r.conn == k
  }

  predicate BeforeConnect(pc: ThreadPc) { Pending(pc) || pc.Connecting? }

  /** The relay of the k-th announcement. */
  function RelayOf(s: Transfer, k: nat): Relay {
    if k < |s.announced| && s.announced[k] < |s.relays| then s.relays[s.announced[k]] else NoConn
  }

  /** Receiver k's connection: its stage in the table, and what its block's relay is doing. */
  ghost predicate ThreadMatch(c: Config, s: Transfer, k: nat)
    requires k < |s.threads|
  {
    var r := s.threads[k];
    && (r.park.Absent? <==> BeforeConnect(r.pc))
    && (r.park.Seeking? ==> r.park.slot < |s.slots|)
    && (r.park.Parked? ==>
          r.park.slot < |s.slots| && s.slots[r.park.slot] == Slot(true, k, Nth(c, s.announced, k).offset))
    && (if r.park.Taken? then HasClaimed(RelayOf(s, k), k) else RelayOf(s, k).Scanning?)
  }

  /** A block's relay has claimed the connection that was parked for that very block. */
  ghost predicate RelayMatch(s: Transfer, i: nat)
    requires i < |s.relays|
  {
    var r := s.relays[i];
    && (r.Scanning? ==> r.slot < |s.slots|)
    && (r.Reading? || r.Tailing? || r.Finished? ==>
          r.conn < |s.threads| && r.conn < |s.announced| && s.announced[r.conn] == i && s.threads[r.conn].park.Taken?)
  }

  /** A used slot names a connection parked in it and that connection's offset. */
  ghost predicate SlotMatch(c: Config, s: Transfer, j: nat)
    requires j < |s.slots|
  {
    var slot := s.slots[j];
    slot.used ==>
      && slot.conn < |s.threads| && s.threads[slot.conn].park == Parked(j)
      && slot.offset == Nth(c, s.announced, slot.conn).offset
  }

  ghost predicate MatchingOk(c: Config, s: Transfer) {
    && |s.threads| <= |s.announced|
    && (forall k :: 0 <= k < |s.threads| ==> ThreadMatch(c, s, k))
    && (forall i :: 0 <= i < |s.relays| ==> RelayMatch(s, i))
    && (forall j :: 0 <= j < |s.slots| ==> SlotMatch(c, s, j))
    && (forall k {:trigger RelayOf(s, k)} :: |s.threads| <= k < |s.announced| ==> RelayOf(s, k).Scanning?)
  }

  lemma StartMatching(c: Config)
    requires ValidConfig(c)
    ensures MatchingOk(c, Start(c))
  {
  }

  /** The relay's stage as far as the table is concerned. */
  predicate SameStage(a: Relay, b: Relay) {
    a == b || (!IsAnnounced(a) && !IsAnnounced(b)) || (IsAnnounced(a) && !a.Scanning? && HasClaimed(b, a.conn))
  }

  lemma MatchingNeutral(c: Config, s: Transfer, t: Transfer, i: nat, k: nat)
    requires MatchingOk(c, s) && AnnouncedOk(c, s)
    requires t.slots == s.slots && t.announced == s.announced
    requires t.relays == s.relays
      || (i < |s.relays| == |t.relays| && t.relays == s.relays[i := t.relays[i]] && SameStage(s.relays[i], t.relays[i]))
    requires t.threads == s.threads
      || (k < |s.threads| == |t.threads| && t.threads == s.threads[k := t.threads[k]]
          && t.threads[k].park == s.threads[k].park && BeforeConnect(t.threads[k].pc) == BeforeConnect(s.threads[k].pc))
    ensures MatchingOk(c, t)
  {
    forall v | 0 <= v < |t.threads| ensures ThreadMatch(c, t, v) {
      assert ThreadMatch(c, s, v);
    }
    forall x | 0 <= x < |t.relays| ensures RelayMatch(t, x) {
      assert RelayMatch(s, x);
    }
    forall j | 0 <= j < |t.slots| ensures SlotMatch(c, t, j) {
      assert SlotMatch(c, s, j);
    }
    forall v {:trigger RelayOf(t, v)} | |t.threads| <= v < |t.announced| ensures RelayOf(t, v).Scanning? {
      assert RelayOf(s, v).Scanning?;
    }
  }

  lemma MatchingAnnounce(c: Config, s: Transfer, i: nat)
    requires ValidConfig(c) && Enabled(c, s, Announce(i)) && MatchingOk(c, s) && AnnouncedOk(c, s)
    ensures MatchingOk(c, Apply(c, s, Announce(i)))
  {
    var t := Apply(c, s, Announce(i));
    forall v | 0 <= v < |s.announced| ensures RelayOf(t, v) == RelayOf(s, v) {
      assert s.announced[v] in s.announced;
    }
    forall v | 0 <= v < |t.threads| ensures ThreadMatch(c, t, v) {
      assert ThreadMatch(c, s, v) && RelayOf(t, v) == RelayOf(s, v);
    }
    forall x | 0 <= x < |t.relays| ensures RelayMatch(t, x) {
      assert RelayMatch(s, x);
    }
    forall j | 0 <= j < |t.slots| ensures SlotMatch(c, t, j) {
      assert SlotMatch(c, s, j);
    }
    forall v {:trigger RelayOf(t, v)} | |t.threads| <= v < |t.announced| ensures RelayOf(t, v).Scanning? {
      assert v < |s.announced| ==> RelayOf(s, v).Scanning? && RelayOf(t, v) == RelayOf(s, v);
    }
  }

  /** A new thread's message has been announced, so its block's relay is scanning. */
  lemma MatchingSpawn(c: Config, s: Transfer)
    requires ValidConfig(c) && Enabled(c, s, MainSpawn) && MatchingOk(c, s) && |s.threads| < |s.announced|
    ensures MatchingOk(c, Apply(c, s, MainSpawn))
  {
    var t := Apply(c, s, MainSpawn);
    assert RelayOf(s, |s.threads|).Scanning?;
    forall v | 0 <= v < |t.threads| ensures ThreadMatch(c, t, v) {
      assert v < |s.threads| ==> ThreadMatch(c, s, v);
      assert RelayOf(t, v) == RelayOf(s, v);
    }
    forall x | 0 <= x < |t.relays| ensures RelayMatch(t, x) {
      assert RelayMatch(s, x);
    }
    forall j | 0 <= j < |t.slots| ensures SlotMatch(c, t, j) {
      assert SlotMatch(c, s, j);
    }
    forall v {:trigger RelayOf(t, v)} | |t.threads| <= v < |t.announced| ensures RelayOf(t, v).Scanning? {
      assert RelayOf(s, v).Scanning?;
    }
  }

  /** Connecting and looking on change one connection that is not in the table. */
  lemma MatchingSeek(c: Config, s: Transfer, t: Transfer, k: nat, slot: nat)
    requires MatchingOk(c, s) && k < |s.threads| && (s.threads[k].pc.Connecting? || s.threads[k].park.Seeking?)
    requires k < |t.threads|
    requires t == s.(threads := s.threads[k := s.threads[k].(pc := t.threads[k].pc, park := Seeking(slot))])
    requires slot < |s.slots|
    requires !BeforeConnect(t.threads[k].pc)
    ensures MatchingOk(c, t)
  {
    assert ThreadMatch(c, s, k);
    forall v | 0 <= v < |t.threads| ensures ThreadMatch(c, t, v) {
      assert ThreadMatch(c, s, v) && RelayOf(t, v) == RelayOf(s, v);
    }
    forall x | 0 <= x < |t.relays| ensures RelayMatch(t, x) {
      assert RelayMatch(s, x);
    }
    forall j | 0 <= j < |t.slots| ensures SlotMatch(c, t, j) {
      assert SlotMatch(c, s, j);
    }
    forall v {:trigger RelayOf(t, v)} | |t.threads| <= v < |t.announced| ensures RelayOf(t, v).Scanning? {
      assert RelayOf(s, v).Scanning?;
    }
  }

  lemma MatchingSeekOn(c: Config, s: Transfer, k: nat)
    requires ValidConfig(c) && Enabled(c, s, ParkStep(k)) && MatchingOk(c, s)
    requires s.slots[s.threads[k].park.slot].used
    ensures MatchingOk(c, Apply(c, s, ParkStep(k)))
  {
    assert ThreadMatch(c, s, k);
    MatchingSeek(c, s, AfterPark(s, k), k, (s.threads[k].park.slot + 1) % |s.slots|);
  }

  lemma MatchingPark(c: Config, s: Transfer, k: nat)
    requires ValidConfig(c) && Enabled(c, s, ParkStep(k)) && MatchingOk(c, s) && HandoffOk(c, s)
    requires !s.slots[s.threads[k].park.slot].used
    ensures MatchingOk(c, Apply(c, s, ParkStep(k)))
  {
    var t := AfterPark(s, k);
    assert ThreadMatch(c, s, k);
    forall v | 0 <= v < |t.threads| ensures ThreadMatch(c, t, v) {
      assert ThreadMatch(c, s, v) && RelayOf(t, v) == RelayOf(s, v);
    }
    forall x | 0 <= x < |t.relays| ensures RelayMatch(t, x) {
      assert RelayMatch(s, x);
    }
    forall j | 0 <= j < |t.slots| ensures SlotMatch(c, t, j) {
      assert SlotMatch(c, s, j);
    }
    forall v {:trigger RelayOf(t, v)} | |t.threads| <= v < |t.announced| ensures RelayOf(t, v).Scanning? {
      assert RelayOf(s, v).Scanning?;
    }
  }

  /** A receiving thread's other steps leave the table alone. */
  lemma MatchingThread(c: Config, s: Transfer, a: Action)
    requires ValidConfig(c) && Enabled(c, s, a) && MatchingOk(c, s) && AnnouncedOk(c, s)
    requires a.ThreadWait? || a.ThreadCopy? || a.ThreadPost? || a.Receive?
    ensures MatchingOk(c, Apply(c, s, a))
  {
    hide MatchingOk;
    MatchingNeutral(c, s, Apply(c, s, a), 0, a.k);
  }

  /** Blocks of different announcements have different offsets. */
  lemma OffsetsDiffer(c: Config, s: Transfer, i: nat, k: nat)
    requires AnnouncedOk(c, s) && Tiles(c.blocks, 0, |c.file|)
    requires i < |c.blocks| && k < |s.announced| && Nth(c, s.announced, k).offset == c.blocks[i].offset
    ensures s.announced[k] == i
  {
  }

  /** What a matching slot holds: the one connection parked for relay i's block. */
  lemma SlotIsMine(c: Config, s: Transfer, i: nat, j: nat)
    requires MatchingOk(c, s) && AnnouncedOk(c, s) && Tiles(c.blocks, 0, |c.file|)
    requires i < |c.blocks| && j < |s.slots| && s.slots[j].used && s.slots[j].offset == c.blocks[i].offset
    ensures var k := s.slots[j].conn;
      k < |s.threads| && s.announced[k] == i && s.threads[k].park == Parked(j) && s.relays[i].Scanning?
  {
    assert SlotMatch(c, s, j);
    var k := s.slots[j].conn;
    OffsetsDiffer(c, s, i, k);
    assert ThreadMatch(c, s, k);
  }

  lemma MatchingClaim(c: Config, s: Transfer, i: nat)
    requires ValidConfig(c) && Enabled(c, s, Scan(i)) && MatchingOk(c, s) && AnnouncedOk(c, s)
    requires Tiles(c.blocks, 0, |c.file|)
    requires var slot := s.slots[s.relays[i].slot]; slot.used && slot.offset == c.blocks[i].offset
    ensures MatchingOk(c, Apply(c, s, Scan(i)))
  {
    var t := Apply(c, s, Scan(i));
    var j := s.relays[i].slot;
    var k := s.slots[j].conn;
    SlotIsMine(c, s, i, j);
    forall v | 0 <= v < |t.threads| ensures ThreadMatch(c, t, v) {
      assert ThreadMatch(c, s, v);
      assert v != k ==> RelayOf(t, v) == RelayOf(s, v);
    }
    forall x | 0 <= x < |t.relays| ensures RelayMatch(t, x) {
      assert RelayMatch(s, x);
    }
    forall x | 0 <= x < |t.slots| ensures SlotMatch(c, t, x) {
      assert SlotMatch(c, s, x);
    }
    forall v {:trigger RelayOf(t, v)} | |t.threads| <= v < |t.announced| ensures RelayOf(t, v).Scanning? {
      assert RelayOf(s, v).Scanning? && s.announced[v] != i;
    }
  }

  lemma MatchingPass(c: Config, s: Transfer, i: nat)
    requires ValidConfig(c) && Enabled(c, s, Scan(i)) && MatchingOk(c, s) && AnnouncedOk(c, s)
    requires var slot := s.slots[s.relays[i].slot]; !(slot.used && slot.offset == c.blocks[i].offset)
    ensures MatchingOk(c, Apply(c, s, Scan(i)))
  {
    var t := Apply(c, s, Scan(i));
    forall v | 0 <= v < |t.threads| ensures ThreadMatch(c, t, v) {
      assert ThreadMatch(c, s, v);
      assert RelayOf(s, v).Scanning? ==> RelayOf(t, v).Scanning?;
    }
    forall x | 0 <= x < |t.relays| ensures RelayMatch(t, x) {
      assert RelayMatch(s, x);
    }
    forall x | 0 <= x < |t.slots| ensures SlotMatch(c, t, x) {
      assert SlotMatch(c, s, x);
    }
    forall v {:trigger RelayOf(t, v)} | |t.threads| <= v < |t.announced| ensures RelayOf(t, v).Scanning? {
      assert RelayOf(s, v).Scanning?;
    }
  }

  lemma MatchingRelay(c: Config, s: Transfer, a: Action)
    requires ValidConfig(c) && Enabled(c, s, a) && (a.RelayRecv? || a.RelayTail?)
    requires MatchingOk(c, s) && AnnouncedOk(c, s)
    ensures MatchingOk(c, Apply(c, s, a))
  {
    hide MatchingOk;
    MatchingNeutral(c, s, Apply(c, s, a), a.i, s.relays[a.i].conn);
  }

  lemma MatchingTable(c: Config, s: Transfer, a: Action)
    requires ValidConfig(c) && Enabled(c, s, a) && Tiles(c.blocks, 0, |c.file|)
    requires MatchingOk(c, s) && AnnouncedOk(c, s) && HandoffOk(c, s) && (a.ThreadConnect? || a.ParkStep?)
    ensures MatchingOk(c, Apply(c, s, a))
  {
    MatchingFacts(c, s);
    hide MatchingOk, AnnouncedOk, HandoffOk, Tiles, Split, Peek, Poke;
    match a
    case ThreadConnect(k) => MatchingSeek(c, s, Apply(c, s, a), k, 0);
    case ParkStep(k) =>
      if s.slots[s.threads[k].park.slot].used {
        MatchingSeekOn(c, s, k);
      } else {
        MatchingPark(c, s, k);
      }
  }

  lemma MatchingScan(c: Config, s: Transfer, i: nat)
    requires ValidConfig(c) && Enabled(c, s, Scan(i)) && MatchingOk(c, s) && AnnouncedOk(c, s)
    requires Tiles(c.blocks, 0, |c.file|)
    ensures MatchingOk(c, Apply(c, s, Scan(i)))
  {
    hide MatchingOk, AnnouncedOk, Tiles, Split, Peek, Poke;
    var slot := s.slots[s.relays[i].slot];
    if slot.used && slot.offset == c.blocks[i].offset {
      MatchingClaim(c, s, i);
    } else {
      MatchingPass(c, s, i);
    }
  }

  lemma MatchingStep(c: Config, s: Transfer, a: Action)
    requires ValidConfig(c) && Enabled(c, s, a) && Tiles(c.blocks, 0, |c.file|)
    requires MatchingOk(c, s) && AnnouncedOk(c, s) && HandoffOk(c, s)
    ensures MatchingOk(c, Apply(c, s, a))
  {
    MatchingFacts(c, s);
    hide MatchingOk, AnnouncedOk, HandoffOk, Tiles, Split, Peek, Poke;
    match a
    case Announce(i) => MatchingAnnounce(c, s, i);
    case MainSpawn => MatchingSpawn(c, s);
    case ThreadConnect(k) => MatchingTable(c, s, a);
    case ParkStep(k) => MatchingTable(c, s, a);
    case Scan(i) => MatchingScan(c, s, i);
    case RelayRecv(i, n) => MatchingRelay(c, s, a);
    case RelayTail(i, n) => MatchingRelay(c, s, a);
    case Connect(i) => MatchingNeutral(c, s, Apply(c, s, a), i, 0);
    case Write(i) => MatchingNeutral(c, s, Apply(c, s, a), 0, 0);
    case _ => MatchingOther(c, s, a);
  }

  lemma MatchingOther(c: Config, s: Transfer, a: Action)
    requires ValidConfig(c) && Enabled(c, s, a) && MatchingOk(c, s) && AnnouncedOk(c, s)
    requires a.ThreadWait? || a.ThreadCopy? || a.ThreadPost? || a.Receive?
      || a.MainRecv? || a.MainWait? || a.MainCopy? || a.MainPost?
    ensures MatchingOk(c, Apply(c, s, a))
  {
    hide MatchingOk, AnnouncedOk, Split, Poke;
    if a.ThreadWait? || a.ThreadCopy? || a.ThreadPost? || a.Receive? {
      MatchingThread(c, s, a);
    } else {
      MatchingNeutral(c, s, Apply(c, s, a), 0, 0);
    }
  }

  lemma MatchingFacts(c: Config, s: Transfer)
    requires AnnouncedOk(c, s) && HandoffOk(c, s)
    ensures |s.slots| == c.slotCount && |s.announced| == |s.threads| + InHand(s.main) + |s.inbox|
    ensures forall i :: 0 <= i < |c.blocks| && i < |s.senders| && i < |s.relays| ==>
      (s.senders[i].Ready? <==> s.relays[i].NoConn?)
  {
  }
}
