/** The two searches of the shared table, of relays for their connections and of connections
    for a free slot: in which order they look, and that they succeed whatever others do. */
module TransferSearch {
  import opened Counting
  import opened Division
  import opened Blocks
  import opened TransferSystem
  import opened TransferHandoff
  import opened TransferMatching
  import opened TransferData
  import opened TransferTheorems
  import opened TransferMeasure

  /** The threads: one per sender and its server, the message loop, and per receiver its
      own thread and the server's thread that parks its connection. */
  datatype Who = Sending(i: nat) | Relaying(i: nat) | MessageLoop | Thread(k: nat) | Parking(k: nat)

  /** Whose step it is. */
  function Actor(a: Action): Who {
    match a
    case Connect(i) => Sending(i)
    case Write(i) => Sending(i)
    case Announce(i) => Relaying(i)
    case Scan(i) => Relaying(i)
    case RelayRecv(i, _) => Relaying(i)
    case RelayTail(i, _) => Relaying(i)
    case ThreadWait(k) => Thread(k)
    case ThreadCopy(k) => Thread(k)
    case ThreadPost(k) => Thread(k)
    case ThreadConnect(k) => Thread(k)
    case Receive(k, _) => Thread(k)
    case ParkStep(k) => Parking(k)
    case _ => MessageLoop
  }

  function StepsOf(who: Who, acts: seq<Action>): nat {
    if acts == [] then 0 else (if Actor(acts[0]) == who then 1 else 0) + StepsOf(who, acts[1..])
  }

  lemma Sizes(c: Config, s: Transfer)
    requires ValidConfig(c) && Inv(c, s)
    ensures |s.senders| == |s.wires| == |s.relays| == |c.blocks| && |s.slots| == c.slotCount
    ensures |s.threads| <= |s.announced|
  {
    MoreAnnounced(c, s);
  }

  // ------------------------------------------------------------- relays look

  /** How many fruitless looks a cyclic search at slot `x` makes before it comes to slot `j`. */
  function Distance(x: nat, j: nat, n: nat): (d: nat)
    requires x < n && j < n
    ensures d < n
  {
    if x <= j then j - x else n + j - x
  }

  lemma DistanceStep(x: nat, j: nat, n: nat)
    requires x < n && j < n && x != j
    ensures (x + 1) % n < n && Distance((x + 1) % n, j, n) == Distance(x, j, n) - 1
  {
    if x + 1 < n {
      DivUnique(x + 1, n, 0, x + 1);
    } else {
      DivUnique(n, n, 1, 0);
    }
  }

  /** Relay i is `d` looks away from slot j, which holds the connection for its block. */
  ghost predicate SeeksSlot(c: Config, s: Transfer, i: nat, j: nat, d: nat) {
    && IsBlock(c, s, i) && j < |s.slots| && s.slots[j].used && s.slots[j].offset == c.blocks[i].offset
    && s.relays[i].Scanning? && s.relays[i].slot < |s.slots| && Distance(s.relays[i].slot, j, |s.slots|) == d
  }

  /** A used slot's offset belongs to no other used slot. */
  lemma OnlySlot(c: Config, s: Transfer, i: nat, j: nat, x: nat)
    requires ValidConfig(c) && Inv(c, s) && i < |c.blocks| && j < |s.slots| && x < |s.slots|
    requires s.slots[j].used && s.slots[j].offset == c.blocks[i].offset
    requires s.slots[x].used && s.slots[x].offset == c.blocks[i].offset
    ensures x == j
  {
    ConfigTiles(c);
    SlotIsMine(c, s, i, j);
    SlotIsMine(c, s, i, x);
    hide HandoffOk, WiresOk, MappingOk, MatchingOk, Split, Tiles;
    assert s.slots[j].conn == s.slots[x].conn;
  }

  /** Its own look takes the relay one slot on, or to its connection. */
  lemma OwnScan(c: Config, s: Transfer, i: nat, j: nat, d: nat)
    requires ValidConfig(c) && Inv(c, s) && Enabled(c, s, Scan(i)) && SeeksSlot(c, s, i, j, d)
    ensures var t := Apply(c, s, Scan(i));
      if d == 0 then i < |t.relays| && HasClaimed(t.relays[i], s.slots[j].conn)
      else SeeksSlot(c, t, i, j, d - 1) && t.slots[j] == s.slots[j]
  {
    var x := s.relays[i].slot;
    if x == j {
      ConfigTiles(c);
      SlotIsMine(c, s, i, j);
    } else {
      if s.slots[x].used && s.slots[x].offset == c.blocks[i].offset {
        OnlySlot(c, s, i, j, x);
      }
      hide Inv, Split;
      DistanceStep(x, j, |s.slots|);
    }
  }

  /** Another relay does not claim what relay i seeks. */
  lemma OtherScan(c: Config, s: Transfer, x: nat, i: nat, j: nat)
    requires ValidConfig(c) && Inv(c, s) && Enabled(c, s, Scan(x)) && x != i && i < |c.blocks|
    requires j < |s.slots| && s.slots[j].used && s.slots[j].offset == c.blocks[i].offset
    ensures var t := Apply(c, s, Scan(x)); j < |t.slots| && t.slots[j] == s.slots[j]
  {
    ConfigTiles(c);
    SlotIsMine(c, s, i, j);
    hide Inv, Apply, Enabled, Split;
    ScanKeepsOrClaims(c, s, x, j);
  }

  /** Other steps leave the relay's search as it is. */
  lemma OthersScan(c: Config, s: Transfer, a: Action, i: nat, j: nat, d: nat)
    requires ValidConfig(c) && Inv(c, s) && Enabled(c, s, a) && SeeksSlot(c, s, i, j, d)
    requires Actor(a) != Relaying(i)
    ensures SeeksSlot(c, Apply(c, s, a), i, j, d) && Apply(c, s, a).slots[j] == s.slots[j]
  {
    if a.Scan? {
      OtherScan(c, s, a.i, i, j);
    } else {
      hide Inv;
      OthersKeepUsedSlot(c, s, a, j);
    }
    NotConnecting(c, s, i);
    hide Inv, Apply;
    OthersKeepRelay(c, s, a, i);
    TableSize(c, s, a);
  }

  /** Only its own steps, and the connection of its sender, change a relay. */
  lemma OthersKeepRelay(c: Config, s: Transfer, a: Action, i: nat)
    requires ValidConfig(c) && Enabled(c, s, a) && i < |s.relays| && Actor(a) != Relaying(i) && a != Connect(i)
    ensures var t := Apply(c, s, a); |t.relays| == |s.relays| && t.relays[i] == s.relays[i]
  {
    hide Split, Peek, Delivers, Poke;
    if a.Scan? || a.RelayRecv? || a.RelayTail? {
      OtherRelayMoves(c, s, a, i);
    }
  }

  lemma OtherRelayMoves(c: Config, s: Transfer, a: Action, i: nat)
    requires ValidConfig(c) && Enabled(c, s, a) && i < |s.relays| && Actor(a) != Relaying(i)
    requires a.Scan? || a.RelayRecv? || a.RelayTail?
    ensures var t := Apply(c, s, a); |t.relays| == |s.relays| && t.relays[i] == s.relays[i]
  {
    hide Split, Peek, Delivers;
  }

  lemma TableSize(c: Config, s: Transfer, a: Action)
    requires ValidConfig(c) && Inv(c, s) && Enabled(c, s, a)
    ensures var t := Apply(c, s, a);
      && |t.slots| == |s.slots| == c.slotCount && |t.senders| == |t.wires| == |t.relays| == |c.blocks|
  {
    InvStep(c, s, a);
    Sizes(c, s);
    Sizes(c, Apply(c, s, a));
  }

  lemma ClaimStays(c: Config, s: Transfer, a: Action, i: nat, k: nat)
    requires ValidConfig(c) && Inv(c, s) && Enabled(c, s, a) && i < |s.relays| && HasClaimed(s.relays[i], k)
    ensures i < |Apply(c, s, a).relays| && HasClaimed(Apply(c, s, a).relays[i], k)
  {
    if (a.RelayRecv? || a.RelayTail?) && a.i == i {
      hide Inv, Apply;
      RelayReads(c, s, a);
      RelayShape(c, s, a);
    } else {
      NotConnecting(c, s, i);
      hide Inv, Apply;
      OthersKeepRelay(c, s, a, i);
    }
  }

  lemma NotConnecting(c: Config, s: Transfer, i: nat)
    requires ValidConfig(c) && Inv(c, s) && i < |s.relays| && !s.relays[i].NoConn?
    ensures !Enabled(c, s, Connect(i))
  {
    Sizes(c, s);
    SenderStage(c, s, i);
  }

  lemma {:induction false} ClaimStaysClaimed(c: Config, s: Transfer, acts: seq<Action>, t: Transfer, i: nat, k: nat)
    requires ValidConfig(c) && Inv(c, s) && Runs(c, s, acts, t) && i < |s.relays| && HasClaimed(s.relays[i], k)
    ensures i < |t.relays| && HasClaimed(t.relays[i], k)
    decreases acts
  {
    hide Inv, Apply, Enabled, HasClaimed;
    if acts != [] {
      InvStep(c, s, acts[0]);
      ClaimStays(c, s, acts[0], i, k);
      ClaimStaysClaimed(c, Apply(c, s, acts[0]), acts[1..], t, i, k);
    }
  }

  lemma ScansAreSteps(c: Config, s: Transfer, a: Action, i: nat)
    requires Enabled(c, s, a) && Actor(a) == Relaying(i) && i < |s.relays| && s.relays[i].Scanning?
    ensures a == Scan(i)
  {
  }

  /** Once the connection for its block is parked in slot j, a relay has claimed it within
      as many of its own looks as there are slots, whatever all the others do meanwhile. */
  lemma {:induction false} ClaimedWithin(c: Config, s: Transfer, acts: seq<Action>, t: Transfer, i: nat, j: nat, d: nat)
    requires ValidConfig(c) && Inv(c, s) && SeeksSlot(c, s, i, j, d) && Runs(c, s, acts, t)
    ensures d < |s.slots|
    ensures StepsOf(Relaying(i), acts) > d ==> i < |t.relays| && HasClaimed(t.relays[i], s.slots[j].conn)
    decreases acts
  {
    hide Inv, Apply, Enabled, HasClaimed;
    if acts != [] {
      var a, u := acts[0], Apply(c, s, acts[0]);
      InvStep(c, s, a);
      if Actor(a) == Relaying(i) {
        ScansAreSteps(c, s, a, i);
        OwnScan(c, s, i, j, d);
        if d == 0 {
          ClaimStaysClaimed(c, u, acts[1..], t, i, s.slots[j].conn);
        } else {
          ClaimedWithin(c, u, acts[1..], t, i, j, d - 1);
        }
      } else {
        OthersScan(c, s, a, i, j, d);
        ClaimedWithin(c, u, acts[1..], t, i, j, d);
      }
    }
  }

  // -------------------------------------------------------- connections look

  /** Thread k's connection is `d` looks away from slot j, which is free. */
  ghost predicate Hunts(s: Transfer, k: nat, j: nat, d: nat) {
    && k < |s.threads| && s.threads[k].park.Seeking? && s.threads[k].park.slot < |s.slots|
    && j < |s.slots| && !s.slots[j].used && Distance(s.threads[k].park.slot, j, |s.slots|) == d
  }

  predicate HasParked(s: Transfer, k: nat) {
    k < |s.threads| && (s.threads[k].park.Parked? || s.threads[k].park.Taken?)
  }

  /** Its own look parks the connection or takes it one slot on. */
  lemma OwnLook(c: Config, s: Transfer, k: nat, j: nat, d: nat)
    requires ValidConfig(c) && Enabled(c, s, ParkStep(k)) && Hunts(s, k, j, d)
    ensures var t := Apply(c, s, ParkStep(k)); HasParked(t, k) || (d > 0 && Hunts(t, k, j, d - 1))
  {
    hide Split;
    if s.threads[k].park.slot != j {
      DistanceStep(s.threads[k].park.slot, j, |s.slots|);
    }
  }

  /** Claims and parks apart, no step but its own moves a connection in or out of the table. */
  lemma ParkUnmoved(c: Config, s: Transfer, a: Action, k: nat)
    requires ValidConfig(c) && Enabled(c, s, a) && k < |s.threads|
    requires !a.Scan? && a != ParkStep(k) && a != ThreadConnect(k)
    ensures k < |Apply(c, s, a).threads| && Apply(c, s, a).threads[k].park == s.threads[k].park
  {
    hide Split, Peek, Delivers, Poke;
    if a.RelayRecv? || a.RelayTail? {
      RelayMovesNoPark(c, s, a, k);
    }
  }

  lemma RelayMovesNoPark(c: Config, s: Transfer, a: Action, k: nat)
    requires ValidConfig(c) && Enabled(c, s, a) && (a.RelayRecv? || a.RelayTail?) && k < |s.threads|
    ensures |Apply(c, s, a).threads| == |s.threads| && Apply(c, s, a).threads[k].park == s.threads[k].park
  {
    hide Split, Peek, Delivers;
  }

  /** A look of a relay leaves a connection where it is, or takes it. */
  lemma ScanMoves(c: Config, s: Transfer, i: nat, k: nat)
    requires ValidConfig(c) && Enabled(c, s, Scan(i)) && k < |s.threads|
    ensures var t, slot := Apply(c, s, Scan(i)), s.slots[s.relays[i].slot];
      && k < |t.threads|
      && (t.threads[k].park == s.threads[k].park || (slot.used && slot.conn == k && t.threads[k].park.Taken?))
  {
    hide Split, Peek;
  }

  /** Other steps leave the search where it is; at most they take the slot. */
  lemma OthersLook(c: Config, s: Transfer, a: Action, k: nat)
    requires ValidConfig(c) && Inv(c, s) && Enabled(c, s, a) && a != ParkStep(k)
    requires k < |s.threads| && s.threads[k].park.Seeking?
    ensures k < |Apply(c, s, a).threads| && Apply(c, s, a).threads[k].park == s.threads[k].park
  {
    NotHere(c, s, a, k);
    hide Inv, Apply, Enabled;
    if a.Scan? {
      ScanMoves(c, s, a.i, k);
    } else {
      ParkUnmoved(c, s, a, k);
    }
  }

  /** A thread that seeks is past connecting, and no relay has its connection to claim. */
  lemma NotHere(c: Config, s: Transfer, a: Action, k: nat)
    requires ValidConfig(c) && Inv(c, s) && Enabled(c, s, a) && k < |s.threads| && s.threads[k].park.Seeking?
    ensures a != ThreadConnect(k)
    ensures a.Scan? && s.slots[s.relays[a.i].slot].used ==> s.slots[s.relays[a.i].slot].conn != k
  {
    hide AnnouncedOk, HandoffOk, WiresOk, MappingOk, Split;
    assert ThreadMatch(c, s, k);
    if a.Scan? {
      assert SlotMatch(c, s, s.relays[a.i].slot);
    }
  }

  /** Parked is for good, until claimed. */
  lemma ParkStays(c: Config, s: Transfer, a: Action, k: nat)
    requires ValidConfig(c) && Inv(c, s) && Enabled(c, s, a) && HasParked(s, k)
    ensures HasParked(Apply(c, s, a), k)
  {
    PastSeeking(c, s, a, k);
    hide Inv, Apply, Enabled;
    if a.Scan? {
      ScanMoves(c, s, a.i, k);
    } else {
      ParkUnmoved(c, s, a, k);
    }
  }

  lemma PastSeeking(c: Config, s: Transfer, a: Action, k: nat)
    requires ValidConfig(c) && Inv(c, s) && Enabled(c, s, a) && HasParked(s, k)
    ensures a != ThreadConnect(k) && a != ParkStep(k)
  {
    ThreadStage(c, s, k);
    hide Inv;
  }

  lemma {:induction false} ParkStaysParked(c: Config, s: Transfer, acts: seq<Action>, t: Transfer, k: nat)
    requires ValidConfig(c) && Inv(c, s) && Runs(c, s, acts, t) && HasParked(s, k)
    ensures HasParked(t, k)
    decreases acts
  {
    hide Inv, Apply, Enabled, HasParked;
    if acts != [] {
      InvStep(c, s, acts[0]);
      ParkStays(c, s, acts[0], k);
      ParkStaysParked(c, Apply(c, s, acts[0]), acts[1..], t, k);
    }
  }

  /** At some point of the run slot j is in use while thread k's connection still seeks. */
  ghost predicate TakenMeanwhile(c: Config, s: Transfer, acts: seq<Action>, k: nat, j: nat)
    requires ValidConfig(c)
    decreases acts
  {
    || (k < |s.threads| && s.threads[k].park.Seeking? && j < |s.slots| && s.slots[j].used)
    || (acts != [] && Enabled(c, s, acts[0]) && TakenMeanwhile(c, Apply(c, s, acts[0]), acts[1..], k, j))
  }

  /** A connection that is `d` looks away from a free slot has parked after more than `d` looks
      of its own, or the slot was taken by another meanwhile. */
  lemma {:induction false} ParkedWithin(c: Config, s: Transfer, acts: seq<Action>, t: Transfer, k: nat, j: nat, d: nat)
    requires ValidConfig(c) && Inv(c, s) && Hunts(s, k, j, d) && Runs(c, s, acts, t)
    ensures d < |s.slots|
    ensures StepsOf(Parking(k), acts) > d ==> HasParked(t, k) || TakenMeanwhile(c, s, acts, k, j)
    decreases acts
  {
    hide Inv, Apply, Enabled, HasParked;
    if acts != [] {
      var a, u := acts[0], Apply(c, s, acts[0]);
      InvStep(c, s, a);
      TableSize(c, s, a);
      if a == ParkStep(k) {
        OwnLook(c, s, k, j, d);
        if HasParked(u, k) {
          ParkStaysParked(c, u, acts[1..], t, k);
        } else {
          ParkedWithin(c, u, acts[1..], t, k, j, d - 1);
        }
      } else {
        OthersLook(c, s, a, k);
        if !u.slots[j].used {
          ParkedWithin(c, u, acts[1..], t, k, j, d);
        }
      }
    }
  }

  /** If some slot is free all the while a connection seeks, the connection has parked within
      as many of its own looks as there are slots, whatever all the others do meanwhile. */
  lemma FreeSlotIsFound(c: Config, s: Transfer, acts: seq<Action>, t: Transfer, k: nat, j: nat)
    requires ValidConfig(c) && Reachable(c, s) && Runs(c, s, acts, t)
    requires k < |s.threads| && s.threads[k].park.Seeking?
    requires j < |s.slots| && !TakenMeanwhile(c, s, acts, k, j)
    requires StepsOf(Parking(k), acts) >= c.slotCount
    ensures HasParked(t, k)
  {
    ReachableInv(c, s);
    Sizes(c, s);
    assert ThreadMatch(c, s, k);
    hide Inv, Runs;
    ParkedWithin(c, s, acts, t, k, j, Distance(s.threads[k].park.slot, j, |s.slots|));
  }

  // ------------------------------------------------------ the order of looking

  /** How often `a` is taken in a run. */
  function Times(a: Action, acts: seq<Action>): nat {
    if acts == [] then 0 else Bit(acts[0] == a) + Times(a, acts[1..])
  }

  lemma ModAdd(x: nat, y: nat, n: nat)
    requires n > 0
    ensures (x % n + y) % n == (x + y) % n
  {
    var z := x % n + y;
    assert x + y == (x / n + z / n) * n + z % n;
    DivUnique(x + y, n, x / n + z / n, z % n);
  }

  /** The slot relay i looks at next; before it looks at all, the first. */
  function RelayAt(s: Transfer, i: nat): nat {
    if i < |s.relays| && s.relays[i].Scanning? then s.relays[i].slot else 0
  }

  predicate Claimed(s: Transfer, i: nat) {
    i < |s.relays| && IsAnnounced(s.relays[i]) && !s.relays[i].Scanning?
  }

  lemma RelayLook(c: Config, s: Transfer, a: Action, i: nat)
    requires ValidConfig(c) && Inv(c, s) && Enabled(c, s, a) && i < |s.relays| && !Claimed(s, i)
    requires !Claimed(Apply(c, s, a), i)
    ensures RelayAt(Apply(c, s, a), i) == (RelayAt(s, i) + Bit(a == Scan(i))) % c.slotCount
  {
    RelayInTable(c, s, i);
    Sizes(c, s);
    hide Inv;
    if a == Scan(i) {
      OwnLookOn(c, s, i);
    } else if a == Announce(i) || a == Connect(i) {
      hide Split;
    } else {
      ReceivesNothing(c, s, a, i);
      hide Apply, Enabled;
      OthersKeepRelay(c, s, a, i);
    }
  }

  /** A look that claims nothing goes one slot on. */
  lemma OwnLookOn(c: Config, s: Transfer, i: nat)
    requires ValidConfig(c) && Enabled(c, s, Scan(i)) && !Claimed(Apply(c, s, Scan(i)), i)
    ensures RelayAt(Apply(c, s, Scan(i)), i) == (RelayAt(s, i) + 1) % |s.slots|
  {
    hide Split;
  }

  lemma ReceivesNothing(c: Config, s: Transfer, a: Action, i: nat)
    requires Enabled(c, s, a) && !Claimed(s, i) && a != Scan(i) && a != Announce(i)
    ensures Actor(a) != Relaying(i)
  {
  }

  lemma {:induction false} RelayLooks(c: Config, s: Transfer, acts: seq<Action>, t: Transfer, i: nat)
    requires ValidConfig(c) && Inv(c, s) && Runs(c, s, acts, t) && i < |c.blocks| && !Claimed(t, i)
    ensures RelayAt(t, i) == (RelayAt(s, i) + Times(Scan(i), acts)) % c.slotCount
    decreases acts
  {
    hide Inv, Apply, Enabled, RelayAt;
    Sizes(c, s);
    if acts == [] {
      RelayInTable(c, s, i);
    } else {
      var a, u := acts[0], Apply(c, s, acts[0]);
      InvStep(c, s, a);
      Sizes(c, u);
      Unclaimed(c, u, acts[1..], t, i);
      Unclaimed(c, s, acts, t, i);
      RelayLook(c, s, a, i);
      RelayLooks(c, u, acts[1..], t, i);
      ModAdd(RelayAt(s, i) + Bit(a == Scan(i)), Times(Scan(i), acts[1..]), c.slotCount);
    }
  }

  lemma RelayInTable(c: Config, s: Transfer, i: nat)
    requires ValidConfig(c) && Inv(c, s) && i < |s.relays|
    ensures RelayAt(s, i) == RelayAt(s, i) % c.slotCount
  {
    Sizes(c, s);
    assert RelayMatch(s, i);
    DivUnique(RelayAt(s, i), |s.slots|, 0, RelayAt(s, i));
  }

  lemma Unclaimed(c: Config, s: Transfer, acts: seq<Action>, t: Transfer, i: nat)
    requires ValidConfig(c) && Inv(c, s) && Runs(c, s, acts, t) && i < |s.relays| && !Claimed(t, i)
    ensures !Claimed(s, i)
  {
    hide Inv, Runs;
    if Claimed(s, i) {
      ClaimStaysClaimed(c, s, acts, t, i, s.relays[i].conn);
    }
  }

  /** The slot thread k's connection looks at next; before it looks at all, the first. */
  function ParkAt(s: Transfer, k: nat): nat {
    if k < |s.threads| && s.threads[k].park.Seeking? then s.threads[k].park.slot else 0
  }

  lemma ParkLook(c: Config, s: Transfer, a: Action, k: nat)
    requires ValidConfig(c) && Inv(c, s) && Enabled(c, s, a) && !HasParked(Apply(c, s, a), k) && !HasParked(s, k)
    ensures ParkAt(Apply(c, s, a), k) == (ParkAt(s, k) + Bit(a == ParkStep(k))) % c.slotCount
  {
    Sizes(c, s);
    ParkInTable(c, s, k);
    if k < |s.threads| && s.threads[k].park.Seeking? {
      if a != ParkStep(k) {
        OthersLook(c, s, a, k);
        hide Apply, Enabled, Inv;
      } else {
        hide Inv, Split;
      }
    } else {
      NobodySeeks(c, s, a, k);
      hide Inv, Apply;
    }
  }

  /** A connection begins its search at the first slot. */
  lemma NobodySeeks(c: Config, s: Transfer, a: Action, k: nat)
    requires ValidConfig(c) && Enabled(c, s, a) && (k < |s.threads| ==> !s.threads[k].park.Seeking?)
    ensures ParkAt(Apply(c, s, a), k) == 0 && a != ParkStep(k)
  {
    hide Split, Peek, Delivers, Poke;
    if a.Scan? || a.RelayRecv? || a.RelayTail? {
      RelayThreads(c, s, a);
      if k < |s.threads| {
        RelayStartsNoSearch(c, s, a, k);
      }
    }
  }

  lemma RelayStartsNoSearch(c: Config, s: Transfer, a: Action, k: nat)
    requires ValidConfig(c) && Enabled(c, s, a) && (a.Scan? || a.RelayRecv? || a.RelayTail?)
    requires k < |s.threads| && !s.threads[k].park.Seeking?
    ensures k < |Apply(c, s, a).threads| && !Apply(c, s, a).threads[k].park.Seeking?
  {
    hide Apply, Enabled;
    if a.Scan? {
      ScanMoves(c, s, a.i, k);
    } else {
      RelayMovesNoPark(c, s, a, k);
    }
  }

  lemma ParkInTable(c: Config, s: Transfer, k: nat)
    requires ValidConfig(c) && Inv(c, s)
    ensures ParkAt(s, k) == ParkAt(s, k) % c.slotCount
  {
    Sizes(c, s);
    if k < |s.threads| {
      assert ThreadMatch(c, s, k);
    }
    DivUnique(ParkAt(s, k), |s.slots|, 0, ParkAt(s, k));
  }

  lemma {:induction false} ParkLooks(c: Config, s: Transfer, acts: seq<Action>, t: Transfer, k: nat)
    requires ValidConfig(c) && Inv(c, s) && Runs(c, s, acts, t) && !HasParked(t, k)
    ensures ParkAt(t, k) == (ParkAt(s, k) + Times(ParkStep(k), acts)) % c.slotCount
    decreases acts
  {
    hide Inv, Apply, Enabled, ParkAt, HasParked;
    if acts == [] {
      ParkInTable(c, s, k);
    } else {
      var a, u := acts[0], Apply(c, s, acts[0]);
      InvStep(c, s, a);
      if HasParked(u, k) {
        ParkStaysParked(c, u, acts[1..], t, k);
      } else if HasParked(s, k) {
        ParkStays(c, s, a, k);
      }
      ParkLook(c, s, a, k);
      ParkLooks(c, u, acts[1..], t, k);
      ModAdd(ParkAt(s, k) + Bit(a == ParkStep(k)), Times(ParkStep(k), acts[1..]), c.slotCount);
    }
  }

  /** Both searches go round the table from its first slot, one slot a look: in every run the
      next look is at the slot with the number of looks so far, modulo the table's size. */
  lemma SearchOrder(c: Config, acts: seq<Action>, s: Transfer)
    requires ValidConfig(c) && Runs(c, Start(c), acts, s)
    ensures forall i :: 0 <= i < |s.relays| && s.relays[i].Scanning? ==>
      s.relays[i].slot == Times(Scan(i), acts) % c.slotCount
    ensures forall k :: 0 <= k < |s.threads| && s.threads[k].park.Seeking? ==>
      s.threads[k].park.slot == Times(ParkStep(k), acts) % c.slotCount
  {
    forall i | 0 <= i < |s.relays| && s.relays[i].Scanning?
      ensures s.relays[i].slot == Times(Scan(i), acts) % c.slotCount
    {
      RelayOrder(c, acts, s, i);
    }
    forall k | 0 <= k < |s.threads| && s.threads[k].park.Seeking?
      ensures s.threads[k].park.slot == Times(ParkStep(k), acts) % c.slotCount
    {
      ParkOrder(c, acts, s, k);
    }
  }

  lemma RelayOrder(c: Config, acts: seq<Action>, s: Transfer, i: nat)
    requires ValidConfig(c) && Runs(c, Start(c), acts, s) && i < |s.relays| && s.relays[i].Scanning?
    ensures s.relays[i].slot == Times(Scan(i), acts) % c.slotCount
  {
    hide Inv, Runs, Split;
    StartInv(c);
    StartAtFirst(c, i, 0);
    hide Start;
    InvRuns(c, Start(c), acts, s);
    Sizes(c, s);
    RelayLooks(c, Start(c), acts, s, i);
  }

  lemma ParkOrder(c: Config, acts: seq<Action>, s: Transfer, k: nat)
    requires ValidConfig(c) && Runs(c, Start(c), acts, s) && k < |s.threads| && s.threads[k].park.Seeking?
    ensures s.threads[k].park.slot == Times(ParkStep(k), acts) % c.slotCount
  {
    hide Inv, Runs, Split;
    StartInv(c);
    StartAtFirst(c, 0, k);
    hide Start;
    ParkLooks(c, Start(c), acts, s, k);
  }

  lemma StartAtFirst(c: Config, i: nat, k: nat)
    ensures RelayAt(Start(c), i) == 0 && ParkAt(Start(c), k) == 0
  {
  }
}
