/** Announcements and the two-semaphore handoff: the k-th receiving thread gets exactly
    the k-th announced block, and the shared message is never overwritten early. */
module TransferHandoff {
  import opened Counting
  import opened Blocks
  import opened TransferSystem

  predicate IsAnnounced(r: Relay) { !r.NoConn? && !r.Header? }

  /** The history of announcements lists each announced block once. */
  ghost predicate AnnouncedOk(c: Config, s: Transfer) {
    && |s.senders| == |s.wires| == |s.relays| == |c.blocks|
    && |s.slots| == c.slotCount && |s.mapping| == |c.file|
    && (forall k :: 0 <= k < |s.announced| ==> s.announced[k] < |c.blocks|)
    && (forall j, k :: 0 <= j < k < |s.announced| ==> s.announced[j] != s.announced[k])
    && (forall i :: 0 <= i < |c.blocks| ==> (i in s.announced <==> IsAnnounced(s.relays[i])))
    && (forall i :: 0 <= i < |c.blocks| ==> (s.senders[i].Ready? <==> s.relays[i].NoConn?))
  }

  /** The block of the k-th announcement. */
  function Nth(c: Config, announced: seq<nat>, k: nat): Block {
    if k < |announced| && announced[k] < |c.blocks| then c.blocks[announced[k]] else Block(0, 0)
  }

  /** In the handoff: created, and the message cell not yet given back. */
  predicate Pending(pc: ThreadPc) { pc.Waiting? || pc.Taking? || pc.Giving? }

  predicate HasCopied(pc: ThreadPc) { !pc.Waiting? && !pc.Taking? }

  function InHand(m: MainPc): nat { if m.Listening? then 0 else 1 }

  /** Whoever is between a `sem_wait` and the matching `sem_post` of the other side. */
  predicate MainHolds(m: MainPc) { m.Copying? || m.Posting? }

  predicate ThreadHolds(r: Receiver) { r.pc.Taking? || r.pc.Giving? }

  /** Where each announcement is: with a thread, in the message loop's hands, or in the inbox. */
  ghost predicate MessagesOk(c: Config, s: Transfer) {
    && |s.announced| == |s.threads| + InHand(s.main) + |s.inbox|
    && (forall x :: 0 <= x < |s.inbox| ==> s.inbox[x] == Nth(c, s.announced, |s.threads| + InHand(s.main) + x))
    && (s.main.Got? || s.main.Copying? ==> s.main.m == Nth(c, s.announced, |s.threads|))
    && (s.main.Posting? || s.main.Spawning? ==> s.cell == Nth(c, s.announced, |s.threads|))
    && (forall k :: 0 <= k < |s.threads| && HasCopied(s.threads[k].pc) ==> s.threads[k].msg == Nth(c, s.announced, k))
  }

  /** The one token: a semaphore's unit, the message loop, or the newest thread. */
  ghost predicate TokenOk(c: Config, s: Transfer) {
    var n := |s.threads|;
    && (forall k :: 0 <= k < n - 1 ==> !Pending(s.threads[k].pc))
    && if n > 0 && Pending(s.threads[n - 1].pc) then
         && (s.main.Listening? || s.main.Got?) && s.sem0 == 0
         && s.sem1 == Bit(s.threads[n - 1].pc.Waiting?)
         && (!HasCopied(s.threads[n - 1].pc) ==> s.cell == Nth(c, s.announced, n - 1))
       else
         && s.sem0 == Bit(s.main.Listening? || s.main.Got?)
         && s.sem1 == Bit(s.main.Spawning?)
  }

  ghost predicate HandoffOk(c: Config, s: Transfer) {
    MessagesOk(c, s) && TokenOk(c, s)
  }

  lemma StartHandoff(c: Config)
    requires ValidConfig(c)
    ensures AnnouncedOk(c, Start(c)) && HandoffOk(c, Start(c))
  {
  }

  /** Steps that announce nothing. */
  lemma AnnouncedNeutral(c: Config, s: Transfer, t: Transfer, i: nat)
    requires AnnouncedOk(c, s) && t.announced == s.announced
    requires t.senders == s.senders && |t.wires| == |s.wires| && |t.slots| == |s.slots| && |t.mapping| == |s.mapping|
    requires t.relays == s.relays
      || (i < |s.relays| == |t.relays| && t.relays == s.relays[i := t.relays[i]]
          && IsAnnounced(s.relays[i]) && IsAnnounced(t.relays[i]))
    ensures AnnouncedOk(c, t)
  {
  }

  lemma AnnouncedAnnounce(c: Config, s: Transfer, i: nat)
    requires ValidConfig(c) && Enabled(c, s, Announce(i)) && AnnouncedOk(c, s)
    ensures AnnouncedOk(c, Apply(c, s, Announce(i)))
  {
    var t := Apply(c, s, Announce(i));
    forall x | 0 <= x < |c.blocks| ensures x in t.announced <==> IsAnnounced(t.relays[x]) {
      assert x in t.announced <==> x in s.announced || x == i;
    }
  }

  lemma AnnouncedSender(c: Config, s: Transfer, a: Action)
    requires ValidConfig(c) && Enabled(c, s, a) && (a.Connect? || a.Write?) && AnnouncedOk(c, s)
    ensures AnnouncedOk(c, Apply(c, s, a))
  {
  }

  lemma AnnouncedRelay(c: Config, s: Transfer, a: Action)
    requires ValidConfig(c) && Enabled(c, s, a) && (a.Scan? || a.RelayRecv? || a.RelayTail?) && AnnouncedOk(c, s)
    ensures AnnouncedOk(c, Apply(c, s, a))
  {
    hide AnnouncedOk;
    AnnouncedNeutral(c, s, Apply(c, s, a), a.i);
  }

  lemma AnnouncedStep(c: Config, s: Transfer, a: Action)
    requires ValidConfig(c) && Enabled(c, s, a) && AnnouncedOk(c, s)
    ensures AnnouncedOk(c, Apply(c, s, a))
  {
    hide AnnouncedOk;
    var t := Apply(c, s, a);
    match a
    case Connect(i) => AnnouncedSender(c, s, a);
    case Write(i) => AnnouncedSender(c, s, a);
    case Announce(i) => AnnouncedAnnounce(c, s, i);
    case Scan(i) => AnnouncedRelay(c, s, a);
    case RelayRecv(i, n) => AnnouncedRelay(c, s, a);
    case RelayTail(i, n) => AnnouncedRelay(c, s, a);
    case _ => AnnouncedNeutral(c, s, t, 0);
  }

  /** Steps outside the handoff: at most one thread changes, beyond its handoff and not its message. */
  lemma HandoffNeutral(c: Config, s: Transfer, t: Transfer, k: nat)
    requires HandoffOk(c, s)
    requires t.announced == s.announced && t.inbox == s.inbox && t.main == s.main && t.cell == s.cell
    requires t.sem0 == s.sem0 && t.sem1 == s.sem1
    requires t.threads == s.threads
      || (k < |s.threads| == |t.threads| && t.threads == s.threads[k := t.threads[k]]
          && t.threads[k].msg == s.threads[k].msg
          && (t.threads[k].pc == s.threads[k].pc || (!Pending(s.threads[k].pc) && !Pending(t.threads[k].pc))))
    ensures HandoffOk(c, t)
  {
  }

  lemma HandoffAnnounce(c: Config, s: Transfer, i: nat)
    requires ValidConfig(c) && Enabled(c, s, Announce(i)) && HandoffOk(c, s)
    ensures HandoffOk(c, Apply(c, s, Announce(i)))
  {
  }

  lemma HandoffRecv(c: Config, s: Transfer)
    requires ValidConfig(c) && Enabled(c, s, MainRecv) && HandoffOk(c, s)
    ensures HandoffOk(c, Apply(c, s, MainRecv))
  {
    hide Split;
  }

  lemma HandoffSpawn(c: Config, s: Transfer)
    requires ValidConfig(c) && Enabled(c, s, MainSpawn) && HandoffOk(c, s)
    ensures HandoffOk(c, Apply(c, s, MainSpawn))
  {
    hide Split;
  }

  lemma HandoffMain(c: Config, s: Transfer, a: Action)
    requires ValidConfig(c) && Enabled(c, s, a) && HandoffOk(c, s)
    requires a.MainWait? || a.MainCopy? || a.MainPost?
    ensures HandoffOk(c, Apply(c, s, a))
  {
    hide Split;
  }

  /** Only the newest thread can be in the handoff. */
  lemma NewestPending(c: Config, s: Transfer, k: nat)
    requires TokenOk(c, s) && k < |s.threads| && Pending(s.threads[k].pc)
    ensures k == |s.threads| - 1
  {
  }

  /** A step of the newest thread within the handoff or out of it. */
  lemma HandoffThread(c: Config, s: Transfer, a: Action)
    requires ValidConfig(c) && Enabled(c, s, a) && HandoffOk(c, s)
    requires a.ThreadWait? || a.ThreadCopy? || a.ThreadPost?
    ensures HandoffOk(c, Apply(c, s, a))
  {
    hide Split;
    NewestPending(c, s, a.k);
    ThreadMessages(c, s, a);
    ThreadToken(c, s, a);
  }

  lemma ThreadMessages(c: Config, s: Transfer, a: Action)
    requires ValidConfig(c) && Enabled(c, s, a) && HandoffOk(c, s)
    requires (a.ThreadWait? || a.ThreadCopy? || a.ThreadPost?) && a.k == |s.threads| - 1
    ensures MessagesOk(c, Apply(c, s, a))
  {
    hide Split;
  }

  lemma ThreadToken(c: Config, s: Transfer, a: Action)
    requires ValidConfig(c) && Enabled(c, s, a) && TokenOk(c, s)
    requires (a.ThreadWait? || a.ThreadCopy? || a.ThreadPost?) && a.k == |s.threads| - 1
    ensures TokenOk(c, Apply(c, s, a))
  {
    hide Split;
  }

  lemma HandoffStep(c: Config, s: Transfer, a: Action)
    requires ValidConfig(c) && Enabled(c, s, a) && HandoffOk(c, s)
    ensures HandoffOk(c, Apply(c, s, a))
  {
    hide HandoffOk, Split, Peek, Poke;
    match a
    case Announce(i) => HandoffAnnounce(c, s, i);
    case MainRecv => HandoffRecv(c, s);
    case MainWait => HandoffMain(c, s, a);
    case MainCopy => HandoffMain(c, s, a);
    case MainPost => HandoffMain(c, s, a);
    case MainSpawn => HandoffSpawn(c, s);
    case ThreadWait(k) => HandoffThread(c, s, a);
    case ThreadCopy(k) => HandoffThread(c, s, a);
    case ThreadPost(k) => HandoffThread(c, s, a);
    case Connect(i) => HandoffNeutral(c, s, Apply(c, s, a), 0);
    case Write(i) => HandoffNeutral(c, s, Apply(c, s, a), 0);
    case Scan(i) => HandoffRelay(c, s, a);
    case RelayRecv(i, n) => HandoffRelay(c, s, a);
    case RelayTail(i, n) => HandoffRelay(c, s, a);
    case _ => HandoffLater(c, s, a);
  }

  /** A relay's steps, and what a receiving thread does after the handoff. */
  lemma HandoffRelay(c: Config, s: Transfer, a: Action)
    requires ValidConfig(c) && Enabled(c, s, a) && HandoffOk(c, s) && (a.Scan? || a.RelayRecv? || a.RelayTail?)
    ensures HandoffOk(c, Apply(c, s, a))
  {
    hide HandoffOk, Split, Peek;
    HandoffNeutral(c, s, Apply(c, s, a), if a.Scan? then s.slots[s.relays[a.i].slot].conn else s.relays[a.i].conn);
  }

  lemma HandoffLater(c: Config, s: Transfer, a: Action)
    requires ValidConfig(c) && Enabled(c, s, a) && HandoffOk(c, s) && (a.ThreadConnect? || a.ParkStep? || a.Receive?)
    ensures HandoffOk(c, Apply(c, s, a))
  {
    hide HandoffOk, Split, Poke;
    HandoffNeutral(c, s, Apply(c, s, a), a.k);
  }
}
