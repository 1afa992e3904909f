/** One file transfer as a transition system: a sending thread and a relaying server
    thread per block, the receiving client's message loop and its receiving threads,
    and the server threads that park the receivers' connections in the shared table. */
module TransferSystem {
  import opened Streams
  import opened Blocks

  /** The file, how it is cut, what the receiver's mapping holds at first, and the sizes. */
  datatype Config = Config(
    file: seq<byte>, blockSize: nat, blocks: seq<Block>, initial: seq<byte>,
    sendSize: nat, relayBuf: nat, recvBuf: nat, slotCount: nat)

  predicate ValidConfig(c: Config) {
    && c.blockSize > 0 && c.sendSize > 0 && c.relayBuf > 0 && c.recvBuf > 0 && c.slotCount > 0
    && c.blocks == Split(0, |c.file|, c.blockSize) && |c.initial| == |c.file|
  }

  /** A sending thread: not yet connected, in its write loop with `bs` bytes to go, done. */
  datatype Sender = Ready | Writing(i: nat, fp: int, bs: int) | Closed

  /** The server thread of a sender's connection. */
  datatype Relay =
    | NoConn
    | Header                         // has read the header, not yet announced the block
    | Scanning(slot: nat)            // searches the table for the block's offset
    | Reading(conn: nat, remain: int)  // first receive of the relay loop
    | Tailing(conn: nat, remain: int)  // second receive of the relay loop
    | Finished(conn: nat)

  datatype Slot = Slot(used: bool, conn: nat, offset: nat)

  /** The receiving client's message loop, around action 5. */
  datatype MainPc = Listening | Got(m: Block) | Copying(m: Block) | Posting | Spawning

  /** A receiving thread, up to and including its read loop. */
  datatype ThreadPc = Waiting | Taking | Giving | Connecting | Receiving | Done

  /** The server thread of a receiver's connection, up to its claim by a relay. */
  datatype Park = Absent | Seeking(slot: nat) | Parked(slot: nat) | Taken

  /** A receiving thread with its copy of the message, the bytes it has stored, and its
      connection: the bytes forwarded and not yet read, and whether it has been closed. */
  datatype Receiver = Receiver(pc: ThreadPc, msg: Block, got: nat, park: Park, wire: seq<byte>, closed: bool)

  /** A state; `announced` is history, the blocks in the order of their announcements. */
  datatype Transfer = Transfer(
    senders: seq<Sender>, wires: seq<seq<byte>>, relays: seq<Relay>, inbox: seq<Block>,
    main: MainPc, cell: Block, sem0: nat, sem1: nat, threads: seq<Receiver>,
    slots: seq<Slot>, mapping: seq<byte>, announced: seq<nat>)

  function Start(c: Config): Transfer {
    var n := |c.blocks|;
    Transfer(seq(n, _ => Ready), seq(n, _ => []), seq(n, _ => NoConn), [],
             Listening, Block(0, 0), 1, 0, [],
             seq(c.slotCount, _ => Slot(false, 0, 0)), c.initial, [])
  }

  datatype Action =
    | Connect(i: nat)
    | Write(i: nat)
    | Announce(i: nat)
    | Scan(i: nat)
    | RelayRecv(i: nat, n: nat)
    | RelayTail(i: nat, n: nat)
    | MainRecv
    | MainWait
    | MainCopy
    | MainPost
    | MainSpawn
    | ThreadWait(k: nat)
    | ThreadCopy(k: nat)
    | ThreadPost(k: nat)
    | ThreadConnect(k: nat)
    | ParkStep(k: nat)
    | Receive(k: nat, n: nat)

  /** A blocking receive of up to `want` bytes may return `n` of those in `wire`: at
      least one unless none was wanted or the stream has ended. */
  predicate Delivers(wire: seq<byte>, closed: bool, want: int, n: nat) {
    n <= |wire| && (n <= want || n == 0) && (n > 0 || want <= 0 || (wire == [] && closed))
  }

  predicate IsThread(s: Transfer, k: nat) { k < |s.threads| }

  predicate IsBlock(c: Config, s: Transfer, i: nat) {
    i < |c.blocks| && i < |s.senders| && i < |s.wires| && i < |s.relays|
  }

  predicate Enabled(c: Config, s: Transfer, a: Action) {
    match a
    case Connect(i) => IsBlock(c, s, i) && s.senders[i].Ready?
    case Write(i) => IsBlock(c, s, i) && s.senders[i].Writing?
    case Announce(i) => IsBlock(c, s, i) && s.relays[i].Header?
    case Scan(i) => IsBlock(c, s, i) && s.relays[i].Scanning? && s.relays[i].slot < |s.slots|
    case RelayRecv(i, n) =>
      IsBlock(c, s, i) && s.relays[i].Reading? && Delivers(s.wires[i], s.senders[i].Closed?, c.relayBuf, n)
    case RelayTail(i, n) =>
      IsBlock(c, s, i) && s.relays[i].Tailing? && Delivers(s.wires[i], s.senders[i].Closed?, s.relays[i].remain, n)
    case MainRecv => s.main.Listening? && s.inbox != []
    case MainWait => s.main.Got? && s.sem0 > 0
    case MainCopy => s.main.Copying?
    case MainPost => s.main.Posting?
    case MainSpawn => s.main.Spawning?
    case ThreadWait(k) => IsThread(s, k) && s.threads[k].pc.Waiting? && s.sem1 > 0
    case ThreadCopy(k) => IsThread(s, k) && s.threads[k].pc.Taking?
    case ThreadPost(k) => IsThread(s, k) && s.threads[k].pc.Giving?
    case ThreadConnect(k) => IsThread(s, k) && s.threads[k].pc.Connecting?
    case ParkStep(k) => IsThread(s, k) && s.threads[k].park.Seeking? && s.threads[k].park.slot < |s.slots|
    case Receive(k, n) =>
      IsThread(s, k) && s.threads[k].pc.Receiving? && Delivers(s.threads[k].wire, s.threads[k].closed, c.recvBuf, n)
  }

  /** Memory from `at` on, nothing if that is out of bounds. */
  function Peek(memory: seq<byte>, at: int, n: int): (r: seq<byte>)
    ensures 0 <= at && 0 <= n && at + n <= |memory| ==> |r| == n
  {
    if 0 <= at && 0 <= n && at + n <= |memory| then memory[at..at + n] else []
  }

  /** Memory with `bytes` stored from `at` on, unchanged if that is out of bounds. */
  function Poke(memory: seq<byte>, at: nat, bytes: seq<byte>): seq<byte> {
    if at + |bytes| <= |memory| then Overwrite(memory, at, bytes) else memory
  }

  function SetThread(s: Transfer, k: nat, r: Receiver): Transfer {
    if k < |s.threads| then s.(threads := s.threads[k := r]) else s
  }

  /** The test of the relay loop: more to forward, or both connections are closed. */
  function LoopTest(s: Transfer, i: nat, k: nat, remain: int): (t: Transfer)
    requires i < |s.relays|
    ensures t == s.(relays := t.relays, threads := t.threads)
  {
    if remain > 0 || k >= |s.threads| then s.(relays := s.relays[i := Reading(k, remain)])
    else SetThread(s.(relays := s.relays[i := Finished(k)]), k, s.threads[k].(closed := true))
  }

  /** Moves `n` bytes from sender i's connection to receiver k's. */
  function Forward(s: Transfer, i: nat, k: nat, n: nat): (t: Transfer)
    requires i < |s.wires| && n <= |s.wires[i]|
    ensures t == s.(wires := t.wires, threads := t.threads)
  {
    var t := s.(wires := s.wires[i := s.wires[i][n..]]);
    if k < |s.threads| then SetThread(t, k, s.threads[k].(wire := s.threads[k].wire + s.wires[i][..n])) else t
  }

  function AfterWrite(c: Config, s: Transfer, i: nat): Transfer
    requires IsBlock(c, s, i) && s.senders[i].Writing? && c.sendSize > 0
  {
    var w := s.senders[i];
    if w.i < c.blocks[i].bs / c.sendSize then
      s.(wires := s.wires[i := s.wires[i] + Peek(c.file, w.fp, c.sendSize)],
         senders := s.senders[i := Writing(w.i + 1, w.fp + c.sendSize, w.bs - c.sendSize)])
    else
      s.(wires := s.wires[i := s.wires[i] + Peek(c.file, w.fp, w.bs)], senders := s.senders[i := Closed])
  }

  /** One locked look at a slot by a relay: it claims a used slot of its offset. */
  function AfterScan(c: Config, s: Transfer, i: nat): Transfer
    requires IsBlock(c, s, i) && s.relays[i].Scanning? && s.relays[i].slot < |s.slots|
  {
    var j := s.relays[i].slot;
    var slot := s.slots[j];
    if slot.used && slot.offset == c.blocks[i].offset then
      var t := s.(slots := s.slots[j := slot.(used := false)]);
      var u := if slot.conn < |s.threads| then SetThread(t, slot.conn, s.threads[slot.conn].(park := Taken)) else t;
      LoopTest(u, i, slot.conn, c.blocks[i].bs)
    else s.(relays := s.relays[i := Scanning((j + 1) % |s.slots|)])
  }

  /** One locked look at a slot for a receiver's connection: it takes a free slot. */
  function AfterPark(s: Transfer, k: nat): Transfer
    requires IsThread(s, k) && s.threads[k].park.Seeking? && s.threads[k].park.slot < |s.slots|
  {
    var r := s.threads[k];
    var j := r.park.slot;
    if !s.slots[j].used then
      SetThread(s.(slots := s.slots[j := Slot(true, k, r.msg.offset)]), k, r.(park := Parked(j)))
    else SetThread(s, k, r.(park := Seeking((j + 1) % |s.slots|)))
  }

  function AfterRelayRecv(c: Config, s: Transfer, i: nat, n: nat): Transfer
    requires IsBlock(c, s, i) && s.relays[i].Reading? && n <= |s.wires[i]| && c.relayBuf > 0
  {
    var r := s.relays[i];
    var t := Forward(s, i, r.conn, n);
    if r.remain - n <= c.blocks[i].bs % c.relayBuf then t.(relays := t.relays[i := Tailing(r.conn, r.remain - n)])
    else LoopTest(t, i, r.conn, r.remain - n)
  }

  function AfterReceive(c: Config, s: Transfer, k: nat, n: nat): Transfer
    requires IsThread(s, k) && n <= |s.threads[k].wire|
  {
    var r := s.threads[k];
    SetThread(s.(mapping := Poke(s.mapping, r.msg.offset + r.got, r.wire[..n])), k,
              r.(got := r.got + n, wire := r.wire[n..], pc := if n == c.recvBuf then Receiving else Done))
  }

  function Apply(c: Config, s: Transfer, a: Action): Transfer
    requires ValidConfig(c) && Enabled(c, s, a)
  {
    match a
    case Connect(i) =>
      s.(senders := s.senders[i := Writing(0, c.blocks[i].offset, c.blocks[i].bs)], relays := s.relays[i := Header])
    case Write(i) => AfterWrite(c, s, i)
    case Announce(i) =>
      s.(relays := s.relays[i := Scanning(0)], inbox := s.inbox + [c.blocks[i]], announced := s.announced + [i])
    case Scan(i) => AfterScan(c, s, i)
    case RelayRecv(i, n) => AfterRelayRecv(c, s, i, n)
    case RelayTail(i, n) => LoopTest(Forward(s, i, s.relays[i].conn, n), i, s.relays[i].conn, s.relays[i].remain - n)
    case MainRecv => s.(main := Got(s.inbox[0]), inbox := s.inbox[1..])
    case MainWait => s.(main := Copying(s.main.m), sem0 := s.sem0 - 1)
    case MainCopy => s.(main := Posting, cell := s.main.m)
    case MainPost => s.(main := Spawning, sem1 := s.sem1 + 1)
    case MainSpawn =>
      s.(main := Listening, threads := s.threads + [Receiver(Waiting, Block(0, 0), 0, Absent, [], false)])
    case ThreadWait(k) => SetThread(s.(sem1 := s.sem1 - 1), k, s.threads[k].(pc := Taking))
    case ThreadCopy(k) => SetThread(s, k, s.threads[k].(pc := Giving, msg := s.cell))
    case ThreadPost(k) => SetThread(s.(sem0 := s.sem0 + 1), k, s.threads[k].(pc := Connecting))
    case ThreadConnect(k) => SetThread(s, k, s.threads[k].(pc := Receiving, park := Seeking(0)))
    case ParkStep(k) => AfterPark(s, k)
    case Receive(k, n) => AfterReceive(c, s, k, n)
  }

  /** `acts`, taken in order from `s`, are all enabled and end in `t`. */
  ghost predicate Runs(c: Config, s: Transfer, acts: seq<Action>, t: Transfer)
    requires ValidConfig(c)
    decreases acts
  {
    if acts == [] then s == t
    else Enabled(c, s, acts[0]) && Runs(c, Apply(c, s, acts[0]), acts[1..], t)
  }

  ghost predicate Reachable(c: Config, s: Transfer)
    requires ValidConfig(c)
  {
    exists acts: seq<Action> :: Runs(c, Start(c), acts, s)
  }
}
