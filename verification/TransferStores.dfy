/** The receivers' writes into the mapping, one per receive: in every run no two touch
    the same byte, so the mapping does not depend on their order. */
module TransferStores {
  import opened Streams
  import opened Blocks
  import opened TransferSystem
  import opened TransferHandoff
  import opened TransferMatching
  import opened TransferData
  import opened TransferTheorems

  /** The write a step makes: a receive's bytes, behind what its thread has stored so far. */
  function StoresOf(s: Transfer, a: Action): seq<Store> {
    if a.Receive? && a.k < |s.threads| && a.n <= |s.threads[a.k].wire| then
      var r := s.threads[a.k];
      [Store(r.msg.offset + r.got, r.wire[..a.n])]
    else []
  }

  /** The writes of a run. */
  ghost function StoresOfRun(c: Config, s: Transfer, acts: seq<Action>): seq<Store>
    requires ValidConfig(c)
    decreases acts
  {
    if acts == [] || !Enabled(c, s, acts[0]) then []
    else StoresOf(s, acts[0]) + StoresOfRun(c, Apply(c, s, acts[0]), acts[1..])
  }

  /** Thread k has stored byte x. */
  predicate HasStored(s: Transfer, k: nat, x: int) {
    && k < |s.threads| && HasCopied(s.threads[k].pc)
    && s.threads[k].msg.offset <= x < s.threads[k].msg.offset + s.threads[k].got
  }

  /** Some thread has stored every byte that the writes so far touch. */
  ghost predicate StoresKnown(s: Transfer, past: seq<Store>) {
    forall j, x | 0 <= j < |past| && Hits(past[j], x) :: exists k :: HasStored(s, k, x)
  }

  /** `past` are the writes that have made the mapping what it is. */
  ghost predicate PastOk(c: Config, s: Transfer, past: seq<Store>) {
    && |c.initial| == |c.file| && Disjoint(past, |c.initial|) && StoresKnown(s, past)
    && s.mapping == StoreAll(c.initial, past)
  }

  /** What a thread has stored stays so. */
  lemma HasStoredStays(c: Config, s: Transfer, a: Action, k: nat, x: int)
    requires ValidConfig(c) && Enabled(c, s, a) && HasStored(s, k, x)
    ensures HasStored(Apply(c, s, a), k, x)
  {
    hide Split, Peek, Delivers;
    if a.Scan? || a.RelayRecv? || a.RelayTail? {
      RelayThreads(c, s, a);
      RelayLeavesThread(c, s, a, k);
    }
  }

  /** A receive's write is within the mapping and touches nothing stored before. */
  lemma ReceiveIsFresh(c: Config, s: Transfer, k: nat, n: nat)
    requires ValidConfig(c) && Inv(c, s) && Enabled(c, s, Receive(k, n))
    ensures var r, t := s.threads[k], Apply(c, s, Receive(k, n));
      var at := r.msg.offset + r.got;
      && at + n <= |s.mapping| && t.mapping == Overwrite(s.mapping, at, r.wire[..n])
      && (forall x :: at <= x < at + n ==> HasStored(t, k, x))
      && (forall v, x | HasStored(s, v, x) :: !(at <= x < at + n))
  {
    SameFrame(c, s);
    ConfigTiles(c);
    ReceiveStores(c, s, k, n);
    var r := s.threads[k];
    forall v, x | HasStored(s, v, x) ensures !(r.msg.offset + r.got <= x < r.msg.offset + r.got + n) {
      if v != k {
        StoredInBlock(c, s, v);
        BlocksApart(c, s, k, v);
      }
    }
  }

  lemma StoredInBlock(c: Config, s: Transfer, k: nat)
    requires ValidConfig(c) && Inv(c, s) && k < |s.threads| && HasCopied(s.threads[k].pc)
    ensures s.threads[k].got <= s.threads[k].msg.bs && s.threads[k].msg == Nth(c, s.announced, k)
  {
    ConfigTiles(c);
    MoreAnnounced(c, s);
    ForwardedInBlock(c, s, k);
    hide AnnouncedOk, MatchingOk, MappingOk, BlockData, Split, Tiles;
    assert ThreadData(c, s, k);
  }

  /** Different threads have disjoint blocks. */
  lemma BlocksApart(c: Config, s: Transfer, j: nat, k: nat)
    requires ValidConfig(c) && Inv(c, s) && j < |s.threads| && k < |s.threads| && j != k
    ensures var a, b := Nth(c, s.announced, j), Nth(c, s.announced, k);
      a.offset + a.bs <= b.offset || b.offset + b.bs <= a.offset
  {
    ConfigTiles(c);
    MoreAnnounced(c, s);
    hide HandoffOk, MatchingOk, WiresOk, MappingOk, Split;
    assert s.announced[j] != s.announced[k];
  }

  lemma PastKept(c: Config, s: Transfer, a: Action, past: seq<Store>)
    requires ValidConfig(c) && Enabled(c, s, a) && StoresKnown(s, past)
    ensures StoresKnown(Apply(c, s, a), past)
  {
    hide Enabled, Apply, HasStored, Hits;
    forall j, x | 0 <= j < |past| && Hits(past[j], x) ensures exists k :: HasStored(Apply(c, s, a), k, x) {
      var k :| HasStored(s, k, x);
      HasStoredStays(c, s, a, k, x);
    }
  }

  /** One more write, to bytes that nobody has stored. */
  lemma PastMore(c: Config, s: Transfer, past: seq<Store>, t: Transfer, k: nat, w: Store)
    requires PastOk(c, s, past) && StoresKnown(t, past) && w.at + |w.bytes| <= |c.initial|
    requires t.mapping == Overwrite(s.mapping, w.at, w.bytes)
    requires forall x | Hits(w, x) :: HasStored(t, k, x)
    requires forall v, x | HasStored(s, v, x) :: !Hits(w, x)
    ensures PastOk(c, t, past + [w])
  {
    hide Overwrite, HasStored, Hits;
    var all := past + [w];
    assert all[..|all| - 1] == past;
    forall j, x | 0 <= j < |past| && Hits(past[j], x) ensures !Hits(w, x) {
      var v :| HasStored(s, v, x);
    }
    FreshIsDisjoint(past, w, |c.initial|);
    forall j, x | 0 <= j < |all| && Hits(all[j], x) ensures exists v :: HasStored(t, v, x) {
      assert j < |past| ==> Hits(past[j], x);
      assert j == |past| ==> HasStored(t, k, x);
    }
  }

  lemma FreshIsDisjoint(past: seq<Store>, w: Store, size: nat)
    requires Disjoint(past, size) && w.at + |w.bytes| <= size
    requires forall j, x | 0 <= j < |past| && Hits(past[j], x) :: !Hits(w, x)
    ensures Disjoint(past + [w], size)
  {
    hide Hits;
    var all := past + [w];
    forall i, j, x | 0 <= i < |all| && 0 <= j < |all| && i != j && Hits(all[i], x) ensures !Hits(all[j], x) {
      assert i < |past| ==> Hits(past[i], x);
    }
  }

  lemma PastReceive(c: Config, s: Transfer, k: nat, n: nat, past: seq<Store>)
    requires ValidConfig(c) && Inv(c, s) && Enabled(c, s, Receive(k, n)) && PastOk(c, s, past)
    ensures PastOk(c, Apply(c, s, Receive(k, n)), past + StoresOf(s, Receive(k, n)))
  {
    SameFrame(c, s);
    hide Inv, Apply, Overwrite, HasStored, Split;
    ReceiveIsFresh(c, s, k, n);
    PastKept(c, s, Receive(k, n), past);
    PastMore(c, s, past, Apply(c, s, Receive(k, n)), k, StoresOf(s, Receive(k, n))[0]);
  }

  lemma PastStep(c: Config, s: Transfer, a: Action, past: seq<Store>)
    requires ValidConfig(c) && Inv(c, s) && Enabled(c, s, a) && PastOk(c, s, past)
    ensures PastOk(c, Apply(c, s, a), past + StoresOf(s, a))
  {
    if a.Receive? {
      hide Inv, PastOk;
      PastReceive(c, s, a.k, a.n, past);
    } else {
      PastKept(c, s, a, past);
      MappingStays(c, s, a);
      hide Inv, Apply, Enabled, Disjoint, StoreAll, StoresKnown;
      assert past + [] == past;
    }
  }

  lemma MappingStays(c: Config, s: Transfer, a: Action)
    requires ValidConfig(c) && Enabled(c, s, a) && !a.Receive?
    ensures Apply(c, s, a).mapping == s.mapping
  {
    hide Split, Peek, Delivers;
  }

  lemma {:induction false} PastRuns(c: Config, s: Transfer, acts: seq<Action>, t: Transfer, past: seq<Store>)
    requires ValidConfig(c) && Inv(c, s) && PastOk(c, s, past) && Runs(c, s, acts, t)
    ensures PastOk(c, t, past + StoresOfRun(c, s, acts))
    decreases acts
  {
    hide Inv, PastOk, Apply, Enabled, StoresOf;
    if acts == [] {
      assert past + [] == past;
    } else {
      var a, u := acts[0], Apply(c, s, acts[0]);
      InvStep(c, s, a);
      PastStep(c, s, a, past);
      PastRuns(c, u, acts[1..], t, past + StoresOf(s, a));
      assert past + StoresOf(s, a) + StoresOfRun(c, u, acts[1..]) == past + StoresOfRun(c, s, acts);
    }
  }

  /** In every run the receivers' writes are disjoint and have made the mapping what it is,
      and made in any other order they would have made it the same. */
  lemma StoresCommute(c: Config, acts: seq<Action>, s: Transfer, other: seq<Store>)
    requires ValidConfig(c) && Runs(c, Start(c), acts, s) && multiset(other) == multiset(StoresOfRun(c, Start(c), acts))
    ensures Disjoint(StoresOfRun(c, Start(c), acts), |c.initial|) && Disjoint(other, |c.initial|)
    ensures StoreAll(c.initial, other) == StoreAll(c.initial, StoresOfRun(c, Start(c), acts)) == s.mapping
  {
    StartInv(c);
    var stores := StoresOfRun(c, Start(c), acts);
    assert PastOk(c, Start(c), []);
    PastRuns(c, Start(c), acts, s, []);
    assert [] + stores == stores;
    hide Inv, Runs, Start, Disjoint, StoreAll, StoresOfRun;
    AnyOrderOfStores(c.initial, stores, other);
  }
}
