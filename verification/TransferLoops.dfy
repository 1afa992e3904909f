/** The relay and the receiver as the transition system has them are the byte loops of
    `Streams`: whatever pieces the network deals out, the same bytes move. */
module TransferLoops {
  import opened Counting
  import opened Streams
  import opened Blocks
  import opened TransferSystem
  import opened TransferData
  import opened TransferTheorems
  import opened TransferMeasure
  import opened TransferSearch

  lemma OneStep(c: Config, s: Transfer, a: Action)
    requires ValidConfig(c) && Enabled(c, s, a)
    ensures Runs(c, s, [a], Apply(c, s, a))
  {
    hide Apply, Enabled;
    assert [a][1..] == [];
  }

  lemma FirstStep(c: Config, s: Transfer, a: Action, acts: seq<Action>, t: Transfer)
    requires ValidConfig(c) && Enabled(c, s, a) && Runs(c, Apply(c, s, a), acts, t)
    ensures Runs(c, s, [a] + acts, t)
  {
    hide Apply, Enabled;
    assert ([a] + acts)[1..] == acts;
  }

  // ------------------------------------------------------------------- sender

  /** How many writes a sender of `whole` whole pieces and a rest has made. */
  function WritesDone(w: Sender, whole: nat): nat {
    match w
    case Ready => 0
    case Writing(n, _, _) => n
    case Closed => whole + 1
  }

  /** Each write so far has sent one whole piece. */
  predicate WholePieces(c: Config, s: Transfer, i: nat) {
    IsBlock(c, s, i) && s.senders[i].Writing? ==>
      s.senders[i].fp == c.blocks[i].offset + s.senders[i].i * c.sendSize
  }

  lemma WriteCounted(c: Config, s: Transfer, a: Action, i: nat)
    requires ValidConfig(c) && Inv(c, s) && Enabled(c, s, a) && IsBlock(c, s, i) && WholePieces(c, s, i)
    ensures var t, whole := Apply(c, s, a), c.blocks[i].bs / c.sendSize;
      && IsBlock(c, t, i) && WholePieces(c, t, i)
      && WritesDone(t.senders[i], whole) == WritesDone(s.senders[i], whole) + Bit(a == Write(i))
  {
    SenderStage(c, s, i);
    TableSize(c, s, a);
    hide Inv, Apply, Enabled, Split;
    if a == Write(i) {
      OwnWrite(c, s, i);
    } else if a == Connect(i) {
      OwnConnect(c, s, i);
    } else {
      OthersKeepSender(c, s, a, i);
    }
  }

  lemma OwnWrite(c: Config, s: Transfer, i: nat)
    requires ValidConfig(c) && Enabled(c, s, Write(i)) && WholePieces(c, s, i)
    requires s.senders[i].i <= c.blocks[i].bs / c.sendSize
    ensures var t, whole := Apply(c, s, Write(i)), c.blocks[i].bs / c.sendSize;
      && WholePieces(c, t, i) && i < |t.senders|
      && WritesDone(t.senders[i], whole) == WritesDone(s.senders[i], whole) + 1
  {
    hide Split, Peek;
    var w := s.senders[i];
    assert (w.i + 1) * c.sendSize == w.i * c.sendSize + c.sendSize;
  }

  lemma OwnConnect(c: Config, s: Transfer, i: nat)
    requires ValidConfig(c) && Enabled(c, s, Connect(i))
    ensures var t, whole := Apply(c, s, Connect(i)), c.blocks[i].bs / c.sendSize;
      && WholePieces(c, t, i) && i < |t.senders|
      && WritesDone(t.senders[i], whole) == WritesDone(s.senders[i], whole)
  {
    hide Split;
  }

  lemma OthersKeepSender(c: Config, s: Transfer, a: Action, i: nat)
    requires ValidConfig(c) && Enabled(c, s, a) && i < |s.senders| && a != Write(i) && a != Connect(i)
    ensures i < |Apply(c, s, a).senders| && Apply(c, s, a).senders[i] == s.senders[i]
  {
    hide Split, Peek, Delivers, Poke;
  }

  lemma {:induction false} WritesOfRun(c: Config, s: Transfer, acts: seq<Action>, t: Transfer, i: nat)
    requires ValidConfig(c) && Inv(c, s) && Runs(c, s, acts, t) && IsBlock(c, s, i) && WholePieces(c, s, i)
    ensures var whole := c.blocks[i].bs / c.sendSize;
      && IsBlock(c, t, i) && WholePieces(c, t, i)
      && WritesDone(t.senders[i], whole) == WritesDone(s.senders[i], whole) + Times(Write(i), acts)
    decreases acts
  {
    hide Inv, Apply, Enabled, WholePieces, WritesDone, IsBlock;
    if acts != [] {
      InvStep(c, s, acts[0]);
      WriteCounted(c, s, acts[0], i);
      WritesOfRun(c, Apply(c, s, acts[0]), acts[1..], t, i);
    }
  }

  /** In every run a sender that has made n writes stands n whole pieces into its block, and it
      has closed its connection exactly when it has made one write more than whole pieces. */
  lemma WritesCounted(c: Config, acts: seq<Action>, s: Transfer, i: nat)
    requires ValidConfig(c) && Runs(c, Start(c), acts, s) && i < |c.blocks|
    ensures IsBlock(c, s, i)
    ensures s.senders[i].Ready? ==> Times(Write(i), acts) == 0
    ensures s.senders[i].Writing? ==>
      s.senders[i].i == Times(Write(i), acts)
      && s.senders[i].fp == c.blocks[i].offset + Times(Write(i), acts) * c.sendSize
    ensures s.senders[i].Closed? ==> Times(Write(i), acts) == c.blocks[i].bs / c.sendSize + 1
  {
    StartInv(c);
    hide Inv, Runs, Split;
    WritesOfRun(c, Start(c), acts, s, i);
  }

  // -------------------------------------------------------- relay and receiver

  /** Relay i at the test of its loop or behind it: `remain_size`, zero at the end. */
  function Remaining(r: Relay): int {
    match r
    case Reading(_, remain) => remain
    case Tailing(_, remain) => remain
    case _ => 0
  }

  /** What one receive of relay i does to the loop that `Streams` describes. */
  lemma ReceiveRefined(c: Config, s: Transfer, a: Action, pieces: seq<Piece>)
    requires ValidConfig(c) && Inv(c, s) && Enabled(c, s, a) && (a.RelayRecv? || a.RelayTail?)
    requires a.n == Received(pieces, |s.wires[a.i]|, if a.RelayRecv? then c.relayBuf else |s.wires[a.i]|)
    ensures var want := if a.RelayRecv? then c.relayBuf else |s.wires[a.i]|;
      var l, t := Relayed(RelayLoop(pieces, |s.wires[a.i]|, s.relays[a.i].remain), want), Apply(c, s, a);
      && IsBlock(c, t, a.i) && t.senders == s.senders
      && l.remain >= 0 && |t.wires[a.i]| == l.avail && Remaining(t.relays[a.i]) == l.remain
      && HasSameConn(s.relays[a.i], t.relays[a.i])
  {
    RelayReads(c, s, a);
    hide Inv;
    RelayShape(c, s, a);
    hide Apply;
  }

  predicate HasSameConn(r: Relay, q: Relay) {
    (r.Reading? || r.Tailing?) && (q == Reading(r.conn, Remaining(q)) || q == Tailing(r.conn, Remaining(q)) || q == Finished(r.conn))
  }

  /** After the first receive the relay goes on to the second exactly if no more is left than
      does not fill whole buffers. */
  lemma SecondReceiveIff(c: Config, s: Transfer, i: nat, n: nat)
    requires ValidConfig(c) && Inv(c, s) && Enabled(c, s, RelayRecv(i, n))
    ensures var r := Apply(c, s, RelayRecv(i, n)).relays[i];
      if s.relays[i].remain - n <= c.blocks[i].bs % c.relayBuf then r.Tailing?
      else r == Reading(s.relays[i].conn, s.relays[i].remain - n)
  {
    hide Inv, Split;
  }

  /** The first receive of a pass. */
  lemma FirstReceive(c: Config, s: Transfer, i: nat, pieces: seq<Piece>) returns (a: Action)
    requires ValidConfig(c) && Inv(c, s) && IsBlock(c, s, i) && s.relays[i].Reading? && s.senders[i].Closed?
    ensures Enabled(c, s, a) && Actor(a) == Relaying(i)
    ensures var l, t := Relayed(RelayLoop(pieces, |s.wires[i]|, s.relays[i].remain), c.relayBuf), Apply(c, s, a);
      && IsBlock(c, t, i) && t.senders == s.senders && |t.wires[i]| == l.avail
      && t.relays[i] == (if l.remain <= c.blocks[i].bs % c.relayBuf then Tailing(s.relays[i].conn, l.remain)
                         else Reading(s.relays[i].conn, l.remain))
  {
    RelayRest(c, s, i);
    a := RelayRecv(i, Received(pieces, |s.wires[i]|, c.relayBuf));
    RecvEnabled(c, s, i, a.n);
    hide Inv, Apply, Enabled, Received, Split;
    ReceiveRefined(c, s, a, pieces);
    SecondReceiveIff(c, s, i, a.n);
  }

  /** The second receive of a pass, if there is one. */
  lemma SecondReceive(c: Config, s: Transfer, i: nat, pieces: seq<Piece>) returns (a: Action)
    requires ValidConfig(c) && Inv(c, s) && IsBlock(c, s, i) && s.relays[i].Tailing? && s.senders[i].Closed?
    ensures Enabled(c, s, a) && Actor(a) == Relaying(i) && s.relays[i].remain == |s.wires[i]|
    ensures var l, t := Relayed(RelayLoop(pieces, |s.wires[i]|, s.relays[i].remain), |s.wires[i]|), Apply(c, s, a);
      && IsBlock(c, t, i) && |t.wires[i]| == l.avail
      && t.relays[i] == (if l.remain > 0 then Reading(s.relays[i].conn, l.remain) else Finished(s.relays[i].conn))
  {
    RelayRest(c, s, i);
    a := RelayTail(i, Received(pieces, |s.wires[i]|, |s.wires[i]|));
    TailEnabled(c, s, i, a.n);
    hide Inv, Apply, Enabled, Received, Split;
    ReceiveRefined(c, s, a, pieces);
    NoThirdReceive(c, s, i, a.n);
  }

  /** Where all of a block has been sent, each pass of the relay's loop over any pieces is a
      run of the relay in the system, of two receives or one, to the loop's next test. */
  lemma PassRefined(c: Config, s: Transfer, i: nat, pieces: seq<Piece>) returns (acts: seq<Action>, t: Transfer)
    requires ValidConfig(c) && Inv(c, s) && IsBlock(c, s, i) && s.relays[i].Reading? && s.senders[i].Closed?
    ensures Runs(c, s, acts, t) && forall a :: a in acts ==> Actor(a) == Relaying(i)
    ensures var l := RelayLoop(pieces, |s.wires[i]|, s.relays[i].remain);
      var m, k := RelayPass(l, c.blocks[i].bs, c.relayBuf), s.relays[i].conn;
      && i < |t.wires| && i < |t.relays| && |t.wires[i]| == m.avail
      && t.relays[i] == (if m.remain > 0 then Reading(k, m.remain) else Finished(k))
      && |acts| == (if Relayed(l, c.relayBuf).remain <= c.blocks[i].bs % c.relayBuf then 2 else 1)
  {
    RemainderSmall(c.blocks[i].bs, c.relayBuf);
    hide Inv, Apply, Enabled, Received, Runs, Split;
    var a := FirstReceive(c, s, i, pieces);
    t := Apply(c, s, a);
    OneStep(c, s, a);
    acts := [a];
    if t.relays[i].Tailing? {
      var u := t;
      InvStep(c, s, a);
      var b := SecondReceive(c, u, i, Rest(pieces));
      t := Apply(c, u, b);
      OneStep(c, u, b);
      FirstStep(c, s, a, [b], t);
      acts := [a] + [b];
    }
  }

  lemma RecvEnabled(c: Config, s: Transfer, i: nat, n: nat)
    requires ValidConfig(c) && IsBlock(c, s, i) && s.relays[i].Reading? && s.wires[i] != []
    requires 0 < n <= |s.wires[i]| && n <= c.relayBuf
    ensures Enabled(c, s, RelayRecv(i, n))
  {
  }

  lemma TailEnabled(c: Config, s: Transfer, i: nat, n: nat)
    requires IsBlock(c, s, i) && s.relays[i].Tailing? && n <= |s.wires[i]| && n <= s.relays[i].remain
    requires n > 0 || s.relays[i].remain == 0
    ensures Enabled(c, s, RelayTail(i, n))
  {
  }

  /** The second receive leads to the loop's test. */
  lemma NoThirdReceive(c: Config, s: Transfer, i: nat, n: nat)
    requires ValidConfig(c) && Inv(c, s) && Enabled(c, s, RelayTail(i, n))
    ensures var r := Apply(c, s, RelayTail(i, n)).relays[i];
      r == if s.relays[i].remain - n > 0 then Reading(s.relays[i].conn, s.relays[i].remain - n)
           else Finished(s.relays[i].conn)
  {
    RelayReads(c, s, RelayTail(i, n));
    hide Inv, Split;
  }

  /** Where all of a block has been forwarded, the receiver's loop over any pieces is a run of
      its thread in the system, and stores as much as `Stored` says. */
  lemma {:induction false} ReadRefined(c: Config, s: Transfer, k: nat, pieces: seq<Piece>)
    returns (acts: seq<Action>, t: Transfer)
    requires ValidConfig(c) && k < |s.threads| && s.threads[k].pc.Receiving? && s.threads[k].closed
    ensures Runs(c, s, acts, t) && forall a :: a in acts ==> Actor(a) == Thread(k)
    ensures k < |t.threads| && t.threads[k].pc.Done?
    ensures t.threads[k].got == s.threads[k].got + Stored(pieces, |s.threads[k].wire|, c.recvBuf)
    decreases |s.threads[k].wire|
  {
    var n := Received(pieces, |s.threads[k].wire|, c.recvBuf);
    var a := Receive(k, n);
    ReadStep(c, s, k, n);
    hide Apply, Enabled, Received, Split, Rest;
    var u := Apply(c, s, a);
    if n == c.recvBuf {
      var rest;
      rest, t := ReadRefined(c, u, k, Rest(pieces));
      FirstStep(c, s, a, rest, t);
      acts := [a] + rest;
    } else {
      OneStep(c, s, a);
      acts, t := [a], u;
    }
  }

  lemma ReadStep(c: Config, s: Transfer, k: nat, n: nat)
    requires ValidConfig(c) && k < |s.threads| && s.threads[k].pc.Receiving?
    requires n <= |s.threads[k].wire| && n <= c.recvBuf
    requires n > 0 || (s.threads[k].wire == [] && s.threads[k].closed)
    ensures Enabled(c, s, Receive(k, n))
    ensures var t := Apply(c, s, Receive(k, n));
      && |t.threads| == |s.threads|
      && t.threads[k] == s.threads[k].(got := s.threads[k].got + n, wire := s.threads[k].wire[n..],
                                       pc := if n == c.recvBuf then Receiving else Done)
  {
    hide Split, Poke;
  }
}
