/** The three byte loops of a transfer: the sender's writes, the server's relay and the
    receiver's reads, over connections that may deliver any short results. */
module Streams {
  import opened Division

  newtype byte = x: int | 0 <= x < 256

  /** How many bytes a receive gets at most; a blocking receive gets at least one. */
  type Piece = n: nat | n > 0 witness 1

  /** The result of asking for `want` bytes when `avail` are left before the end of the
      stream and the network has `pieces` in store; with none in store, all it can. */
  function Received(pieces: seq<Piece>, avail: nat, want: nat): (n: nat)
    ensures n <= avail && n <= want
    ensures avail > 0 && want > 0 ==> n > 0
  {
    if pieces == [] then Min(avail, want) else Min(pieces[0], Min(avail, want))
  }

  function Rest(pieces: seq<Piece>): seq<Piece> {
    if pieces == [] then [] else pieces[1..]
  }

  /** A reliable connection: the bytes written and not yet read, whether the writer has
      closed it, and the sizes in which the network will hand the bytes over. */
  class Connection {
    var data: seq<byte>
    var closed: bool
    var pieces: seq<Piece>
    ghost var writes: seq<nat>  // history: how much each write has sent

    /** `write`, assumed complete. */
    method Write(bytes: seq<byte>)
      modifies this`data, this`writes
      ensures data == old(data) + bytes && writes == old(writes) + [|bytes|]
    {
      data := data + bytes;
      writes := writes + [|bytes|];
    }

    method Close()
      modifies this`closed
      ensures closed
    {
      closed := true;
    }

    /** `recv` on a stream whose bytes have all been sent. */
    method Recv(want: nat) returns (bytes: seq<byte>)
      modifies this`data, this`pieces
      ensures |bytes| == Received(old(pieces), |old(data)|, want) && old(data) == bytes + data
      ensures pieces == Rest(old(pieces))
    {
      var n := Received(pieces, |data|, want);
      bytes := data[..n];
      data := data[n..];
      pieces := Rest(pieces);
    }
  }

  // ------------------------------------------------------------------ sender

  /** `send_filedata`: whole pieces of `sendSize` bytes, then the remainder. */
  method SendFiledata(sock: Connection, mapping: seq<byte>, offset: nat, blockSize: nat, sendSize: nat)
    requires sendSize > 0 && offset + blockSize <= |mapping|
    modifies sock`data, sock`closed, sock`writes
    ensures sock.data == old(sock.data) + mapping[offset..offset + blockSize] && sock.closed
    ensures sock.writes == old(sock.writes) + seq(blockSize / sendSize, _ => sendSize) + [blockSize % sendSize]
  {
    var bs := blockSize;
    var num := bs / sendSize;
    var fp := offset;
    var i := 0;
    while i < num
      invariant i <= num && bs / sendSize == num - i
      invariant bs <= blockSize && fp == offset + (blockSize - bs)
      invariant sock.data == old(sock.data) + mapping[offset..fp] && bs % sendSize == blockSize % sendSize
      invariant sock.writes == old(sock.writes) + seq(i, _ => sendSize)
    {
      WholeLeft(bs, sendSize);
      DivStep(bs, sendSize);
      sock.Write(mapping[fp..fp + sendSize]);
      assert mapping[offset..fp] + mapping[fp..fp + sendSize] == mapping[offset..fp + sendSize];
      fp := fp + sendSize;
      bs := bs - sendSize;
      i := i + 1;
      assert seq(i, _ => sendSize) == seq(i - 1, _ => sendSize) + [sendSize];
    }
    PartialLeft(bs, sendSize);
    sock.Write(mapping[fp..fp + bs]);
    assert mapping[offset..fp] + mapping[fp..fp + bs] == mapping[offset..offset + blockSize];
    sock.Close();
  }

  // ------------------------------------------------------------------- relay

  /** The relay's loop at its test: what the network has in store, how many bytes of the
      sender's stream are left, and `remain_size`. */
  datatype RelayLoop = RelayLoop(pieces: seq<Piece>, avail: nat, remain: int)

  /** The size argument of the second receive is unsigned: a negative one asks for all there is. */
  function Wanted(remain: int, avail: nat): nat {
    if remain < 0 then avail else remain
  }

  /** A receive of up to `want` bytes, all forwarded. */
  function Relayed(l: RelayLoop, want: nat): RelayLoop {
    var n := Received(l.pieces, l.avail, want);
    RelayLoop(Rest(l.pieces), l.avail - n, l.remain - n)
  }

  /** Once through the loop. */
  function RelayPass(l: RelayLoop, bs: nat, bufSize: nat): RelayLoop
    requires bufSize > 0
  {
    var m := Relayed(l, bufSize);
    if m.remain <= bs % bufSize then Relayed(m, Wanted(m.remain, m.avail)) else m
  }

  /** The loop after at most `n` passes. */
  function Passes(l: RelayLoop, bs: nat, bufSize: nat, n: nat): RelayLoop
    requires bufSize > 0
    decreases n
  {
    if n == 0 || l.remain <= 0 then l else Passes(RelayPass(l, bs, bufSize), bs, bufSize, n - 1)
  }

  /** A pass takes as much off `remain_size` as off the stream, and something if it can. */
  lemma PassForwards(l: RelayLoop, bs: nat, bufSize: nat)
    requires bufSize > 0
    ensures var m := RelayPass(l, bs, bufSize);
      && l.avail - m.avail == l.remain - m.remain >= 0
      && (l.avail > 0 ==> m.avail < l.avail)
  {
  }

  lemma {:induction false} PassesForward(l: RelayLoop, bs: nat, bufSize: nat, n: nat)
    requires bufSize > 0
    ensures var m := Passes(l, bs, bufSize, n);
      && l.avail - m.avail == l.remain - m.remain >= 0
      && (l.remain <= l.avail && l.remain <= n ==> m.remain <= 0)
    decreases n
  {
    if n > 0 && l.remain > 0 {
      hide RelayPass;
      PassForwards(l, bs, bufSize);
      PassesForward(RelayPass(l, bs, bufSize), bs, bufSize, n - 1);
    }
  }

  /** The relay ends exactly if the sender's stream has at least the announced bytes; when
      it ends it has forwarded that many, and all of a stream that has just that many.  A
      shorter stream keeps it going on empty receives for ever. */
  lemma RelayEndsIff(pieces: seq<Piece>, avail: nat, bs: nat, bufSize: nat)
    requires bufSize > 0
    ensures (exists n: nat :: Passes(RelayLoop(pieces, avail, bs), bs, bufSize, n).remain <= 0) <==> avail >= bs
    ensures forall n: nat | Passes(RelayLoop(pieces, avail, bs), bs, bufSize, n).remain <= 0 ::
      var m := Passes(RelayLoop(pieces, avail, bs), bs, bufSize, n);
      avail - m.avail == bs - m.remain >= bs && (avail == bs ==> m.avail == 0)
  {
    var l := RelayLoop(pieces, avail, bs);
    forall n: nat
      ensures var m := Passes(l, bs, bufSize, n);
        && l.avail - m.avail == l.remain - m.remain >= 0
        && (l.remain <= l.avail && l.remain <= n ==> m.remain <= 0)
    {
      PassesForward(l, bs, bufSize, n);
    }
    if avail >= bs {
      assert Passes(l, bs, bufSize, bs).remain <= 0;
    }
  }

  /** How much is left of the announced bytes when whole buffers come in, from any pass on. */
  lemma {:induction false} WholeBuffers(l: RelayLoop, bs: nat, bufSize: nat, n: nat)
    requires bufSize > 0 && l.pieces == [] && bufSize <= l.remain <= l.avail && l.remain <= n
    requires l.remain % bufSize == bs % bufSize
    ensures Passes(l, bs, bufSize, n).remain == 0
    decreases n
  {
    DivStep(l.remain, bufSize);
    var m := RelayPass(l, bs, bufSize);
    if l.remain - bufSize < bufSize {
      DivUnique(l.remain - bufSize, bufSize, 0, l.remain - bufSize);
      assert m.remain == 0;
    } else {
      RemainderSmall(bs, bufSize);
      assert m == RelayLoop([], l.avail - bufSize, l.remain - bufSize);
      WholeBuffers(m, bs, bufSize, n - 1);
    }
  }

  lemma RemainderSmall(x: nat, d: nat)
    requires d > 0
    ensures 0 <= x % d < d
  {
  }

  /** What the second receive is for.  Where no receive comes short, as the waiting for whole
      buffers makes it, a longer stream is cut off exactly behind the announced bytes if they
      fill at least one buffer; if they do not, all of the stream is forwarded. */
  lemma RelayUnfragmented(avail: nat, bs: nat, bufSize: nat)
    requires bufSize > 0 && avail >= bs
    ensures avail - Passes(RelayLoop([], avail, bs), bs, bufSize, bs).avail == if 0 < bs < bufSize then avail else bs
  {
    var l := RelayLoop([], avail, bs);
    PassesForward(l, bs, bufSize, bs);
    if bs >= bufSize {
      WholeBuffers(l, bs, bufSize, bs);
    } else if bs > 0 {
      DivUnique(bs, bufSize, 0, bs);
      var m := RelayPass(l, bs, bufSize);
      assert m.avail == 0 && m.remain == bs - avail;
      assert Passes(m, bs, bufSize, bs - 1) == m;
    }
  }

  /** One receive from `cofd`, and the write of what came to `tofd`. */
  method ReceiveAndWrite(cofd: Connection, tofd: Connection, want: nat, ghost remain: int)
    returns (size: nat)
    requires cofd != tofd
    modifies cofd`data, cofd`pieces, tofd`data, tofd`writes
    ensures size <= |old(cofd.data)| && tofd.data + cofd.data == old(tofd.data) + old(cofd.data)
    ensures RelayLoop(cofd.pieces, |cofd.data|, remain - size)
      == Relayed(RelayLoop(old(cofd.pieces), |old(cofd.data)|, remain), want)
  {
    var bytes := cofd.Recv(want);
    size := |bytes|;
    tofd.Write(bytes);
  }

  /** The server's `send_file` loop, on a stream on which it ends: however both receives
      fragment the stream they forward its bytes in order. */
  method Relay(cofd: Connection, tofd: Connection, bs: nat, bufSize: nat) returns (remainSize: int)
    requires bufSize > 0 && cofd != tofd && |cofd.data| >= bs
    modifies cofd, tofd`data, tofd`closed, tofd`writes
    ensures RelayLoop(cofd.pieces, |cofd.data|, remainSize)
      == Passes(RelayLoop(old(cofd.pieces), |old(cofd.data)|, bs), bs, bufSize, bs)
    ensures remainSize <= 0 && tofd.data + cofd.data == old(tofd.data) + old(cofd.data)
    ensures |old(cofd.data)| == bs ==> tofd.data == old(tofd.data) + old(cofd.data) && cofd.data == []
    ensures cofd.closed && tofd.closed
  {
    hide Relayed;
    remainSize := bs;
    var err := bs % bufSize;
    ghost var left, total := bs, |cofd.data|;
    while remainSize > 0
      invariant remainSize <= left && remainSize - |cofd.data| == bs - total
      invariant tofd.data + cofd.data == old(tofd.data) + old(cofd.data)
      invariant Passes(RelayLoop(cofd.pieces, |cofd.data|, remainSize), bs, bufSize, left)
        == Passes(RelayLoop(old(cofd.pieces), total, bs), bs, bufSize, bs)
      decreases remainSize
    {
      PassForwards(RelayLoop(cofd.pieces, |cofd.data|, remainSize), bs, bufSize);
      var size := ReceiveAndWrite(cofd, tofd, bufSize, remainSize);
      remainSize := remainSize - size;
      if remainSize <= err {
        size := ReceiveAndWrite(cofd, tofd, Wanted(remainSize, |cofd.data|), remainSize);
        remainSize := remainSize - size;
      }
      left := left - 1;
    }
    tofd.Close();
    cofd.Close();
  }

  // ---------------------------------------------------------------- receiver

  /** How much the receiver's loop stores: it stops at the first short receive. */
  function Stored(pieces: seq<Piece>, avail: nat, bufSize: nat): (n: nat)
    requires bufSize > 0
    ensures n <= avail
    decreases avail
  {
    var got := Received(pieces, avail, bufSize);
    if got == bufSize then got + Stored(Rest(pieces), avail - got, bufSize) else got
  }

  /** `base` with `bytes` written over it from `at` on. */
  function Overwrite(base: seq<byte>, at: nat, bytes: seq<byte>): (r: seq<byte>)
    requires at + |bytes| <= |base|
    ensures |r| == |base|
  {
    base[..at] + bytes + base[at + |bytes|..]
  }

  lemma OverwriteMore(base: seq<byte>, at: nat, a: seq<byte>, b: seq<byte>)
    requires at + |a| + |b| <= |base|
    ensures Overwrite(base, at, []) == base
    ensures Overwrite(Overwrite(base, at, a), at + |a|, b) == Overwrite(base, at, a + b)
  {
  }

  /** One receive's write into the mapping. */
  datatype Store = Store(at: nat, bytes: seq<byte>)

  predicate Hits(w: Store, x: int) {
    w.at <= x < w.at + |w.bytes|
  }

  /** Writes within a mapping of `size` bytes, no two of which touch the same byte. */
  ghost predicate Disjoint(stores: seq<Store>, size: nat) {
    && (forall i :: 0 <= i < |stores| ==> stores[i].at + |stores[i].bytes| <= size)
    && (forall i, j, x | 0 <= i < |stores| && 0 <= j < |stores| && i != j :: Hits(stores[i], x) ==> !Hits(stores[j], x))
  }

  function StoreAll(base: seq<byte>, stores: seq<Store>): (r: seq<byte>)
    requires forall i :: 0 <= i < |stores| ==> stores[i].at + |stores[i].bytes| <= |base|
    ensures |r| == |base|
  {
    if stores == [] then base
    else
      var w := stores[|stores| - 1];
      Overwrite(StoreAll(base, stores[..|stores| - 1]), w.at, w.bytes)
  }

  lemma DisjointPrefix(stores: seq<Store>, size: nat)
    requires stores != [] && Disjoint(stores, size)
    ensures Disjoint(stores[..|stores| - 1], size)
  {
    hide Hits;
  }

  /** A byte that some write touches is what that write stored ... */
  lemma {:induction false} StoredByte(base: seq<byte>, stores: seq<Store>, x: nat, i: nat)
    requires Disjoint(stores, |base|) && x < |base| && i < |stores| && Hits(stores[i], x)
    ensures StoreAll(base, stores)[x] == stores[i].bytes[x - stores[i].at]
  {
    var n := |stores| - 1;
    if i < n {
      DisjointPrefix(stores, |base|);
      StoredByte(base, stores[..n], x, i);
      assert !Hits(stores[n], x);
    }
  }

  /** ... and any other byte is as it was. */
  lemma {:induction false} KeptByte(base: seq<byte>, stores: seq<Store>, x: nat)
    requires Disjoint(stores, |base|) && x < |base|
    requires forall i :: 0 <= i < |stores| ==> !Hits(stores[i], x)
    ensures StoreAll(base, stores)[x] == base[x]
  {
    if stores != [] {
      DisjointPrefix(stores, |base|);
      KeptByte(base, stores[..|stores| - 1], x);
      assert !Hits(stores[|stores| - 1], x);
    }
  }

  lemma OccursTwice<T>(s: seq<T>, i: nat, j: nat)
    requires i < j < |s| && s[i] == s[j]
    ensures multiset(s)[s[i]] >= 2
  {
    assert s == s[..j] + s[j..] && s[i] in s[..j] && s[j] in s[j..];
  }

  lemma {:induction false} TwoPlaces<T>(s: seq<T>, w: T) returns (i: nat, j: nat)
    requires multiset(s)[w] >= 2
    ensures i < j < |s| && s[i] == w && s[j] == w
  {
    assert s == [s[0]] + s[1..];
    if s[0] == w {
      assert w in multiset(s[1..]);
      var k :| 0 <= k < |s[1..]| && s[1..][k] == w;
      i, j := 0, k + 1;
    } else {
      i, j := TwoPlaces(s[1..], w);
      i, j := i + 1, j + 1;
    }
  }

  /** Two elements of a sequence have their places in any other order of it. */
  lemma OtherPlaces<T>(a: seq<T>, b: seq<T>, i: nat, j: nat) returns (k: nat, l: nat)
    requires multiset(a) == multiset(b) && i < j < |b|
    ensures k < |a| && l < |a| && k != l && a[k] == b[i] && a[l] == b[j]
  {
    if b[i] == b[j] {
      OccursTwice(b, i, j);
      k, l := TwoPlaces(a, b[i]);
    } else {
      assert b[i] in multiset(a) && b[j] in multiset(a);
      k :| 0 <= k < |a| && a[k] == b[i];
      l :| 0 <= l < |a| && a[l] == b[j];
    }
  }

  /** Disjoint writes stay disjoint in any other order. */
  lemma PermutedDisjoint(a: seq<Store>, b: seq<Store>, size: nat)
    requires Disjoint(a, size) && multiset(a) == multiset(b)
    ensures Disjoint(b, size)
  {
    hide Hits;
    forall i | 0 <= i < |b| ensures b[i].at + |b[i].bytes| <= size {
      assert b[i] in multiset(a);
    }
    forall i, j, x | 0 <= i < |b| && 0 <= j < |b| && i != j && Hits(b[i], x) ensures !Hits(b[j], x) {
      var k, l;
      if i < j {
        k, l := OtherPlaces(a, b, i, j);
      } else {
        l, k := OtherPlaces(a, b, j, i);
      }
      assert Hits(a[k], x);
    }
  }

  lemma SameByte(base: seq<byte>, a: seq<Store>, b: seq<Store>, x: nat)
    requires Disjoint(a, |base|) && Disjoint(b, |base|) && multiset(a) == multiset(b) && x < |base|
    ensures StoreAll(base, a)[x] == StoreAll(base, b)[x]
  {
    if i :| 0 <= i < |a| && Hits(a[i], x) {
      hide Disjoint, StoreAll, Hits;
      assert a[i] in multiset(b);
      var j :| 0 <= j < |b| && b[j] == a[i];
      StoredByte(base, a, x, i);
      StoredByte(base, b, x, j);
    } else {
      hide StoreAll, Hits;
      forall j | 0 <= j < |b| ensures !Hits(b[j], x) {
        assert b[j] in multiset(a);
      }
      KeptByte(base, a, x);
      KeptByte(base, b, x);
    }
  }

  /** Disjoint writes give the same mapping in every order. */
  lemma AnyOrderOfStores(base: seq<byte>, a: seq<Store>, b: seq<Store>)
    requires Disjoint(a, |base|) && multiset(a) == multiset(b)
    ensures Disjoint(b, |base|) && StoreAll(base, a) == StoreAll(base, b)
  {
    PermutedDisjoint(a, b, |base|);
    forall x | 0 <= x < |base| ensures StoreAll(base, a)[x] == StoreAll(base, b)[x] {
      SameByte(base, a, b, x);
    }
  }

  /** `recv_file`: the block's bytes go to the mapping from `offset` on; the rest of the
      mapping is untouched. */
  method RecvFile(sock: Connection, mapping: array<byte>, offset: nat, bufSize: nat) returns (got: nat)
    requires bufSize > 0 && offset + |sock.data| <= mapping.Length
    modifies sock, mapping
    ensures got == Stored(old(sock.pieces), |old(sock.data)|, bufSize)
    ensures mapping[..] == Overwrite(old(mapping[..]), offset, old(sock.data)[..got])
    ensures sock.data == old(sock.data)[got..] && sock.closed
  {
    hide Overwrite, Received, Rest;
    var fp := offset;
    ghost var sent, base := sock.data, mapping[..];
    OverwriteMore(base, offset, [], []);
    while true
      invariant offset <= fp <= offset + |sent| && sock.data == sent[fp - offset..]
      invariant mapping[..] == Overwrite(base, offset, sent[..fp - offset])
      invariant (fp - offset) + Stored(sock.pieces, |sock.data|, bufSize) == Stored(old(sock.pieces), |sent|, bufSize)
      decreases |sock.data|
    {
      var bytes := sock.Recv(bufSize);
      OverwriteMore(base, offset, sent[..fp - offset], bytes);
      assert sent[..fp - offset] + bytes == sent[..fp - offset + |bytes|];
      CopyInto(mapping, fp, bytes);
      if |bytes| < bufSize {
        got := fp + |bytes| - offset;
        break;
      }
      fp := fp + bufSize;
    }
    sock.Close();
  }

  /** A receive fills its buffer from `at` on. */
  method CopyInto(mapping: array<byte>, at: nat, bytes: seq<byte>)
    requires at + |bytes| <= mapping.Length
    modifies mapping
    ensures mapping[..] == Overwrite(old(mapping[..]), at, bytes)
  {
    forall i | 0 <= i < |bytes| {
      mapping[at + i] := bytes[i];
    }
  }

  /** The receiver's loop stores the whole block exactly when every receive before the
      last fills the buffer and the last gets all that is left. */
  lemma {:induction false} StoredAllIff(pieces: seq<Piece>, avail: nat, bufSize: nat)
    requires bufSize > 0
    ensures Stored(pieces, avail, bufSize) == avail <==> NoShortPiece(pieces, avail, bufSize)
    decreases avail
  {
    var got := Received(pieces, avail, bufSize);
    if got == bufSize {
      StoredAllIff(Rest(pieces), avail - got, bufSize);
    }
    NoShortPieceStep(pieces, avail, bufSize);
  }

  /** The i-th piece in store is large enough for the i-th receive, if there is one. */
  predicate LongEnough(pieces: seq<Piece>, avail: nat, bufSize: nat, i: nat)
    requires i < |pieces|
  {
    i * bufSize < avail ==> pieces[i] >= Min(bufSize, avail - i * bufSize)
  }

  /** How much a short receive leaves.  If the i-th piece is the first too small for its
      receive, the loop stores the full buffers before it and that piece, and stops; if there
      is none, it stores everything. */
  lemma {:induction false} StoredAmount(pieces: seq<Piece>, avail: nat, bufSize: nat, i: nat)
    requires bufSize > 0 && i <= |pieces|
    requires forall j :: 0 <= j < i ==> LongEnough(pieces, avail, bufSize, j)
    requires i < |pieces| ==> !LongEnough(pieces, avail, bufSize, i)
    ensures Stored(pieces, avail, bufSize) == if i < |pieces| then i * bufSize + pieces[i] else avail
  {
    if i == |pieces| {
      StoredAllIff(pieces, avail, bufSize);
    } else if i > 0 {
      BuffersBefore(avail, bufSize, i);
      assert LongEnough(pieces, avail, bufSize, 0) && pieces[0] >= bufSize;
      hide LongEnough;
      forall j {:trigger LongEnough(Rest(pieces), avail - bufSize, bufSize, j)} | 0 <= j < i
        ensures LongEnough(Rest(pieces), avail - bufSize, bufSize, j) <==> LongEnough(pieces, avail, bufSize, j + 1)
      {
        LongEnoughShift(pieces, avail, bufSize, j);
      }
      StoredAmount(Rest(pieces), avail - bufSize, bufSize, i - 1);
    }
  }

  lemma BuffersBefore(avail: nat, bufSize: nat, i: nat)
    requires 0 < i && i * bufSize < avail
    ensures i * bufSize == (i - 1) * bufSize + bufSize && bufSize < avail
  {
    assert (i - 1) * bufSize >= 0;
  }

  /** None of the pieces the network has in store cuts a receive short. */
  ghost predicate NoShortPiece(pieces: seq<Piece>, avail: nat, bufSize: nat) {
    forall i :: 0 <= i < |pieces| ==> LongEnough(pieces, avail, bufSize, i)
  }

  lemma LongEnoughShift(pieces: seq<Piece>, avail: nat, bufSize: nat, i: nat)
    requires 0 < bufSize < avail && i + 1 < |pieces|
    ensures LongEnough(pieces, avail, bufSize, i + 1) <==> LongEnough(Rest(pieces), avail - bufSize, bufSize, i)
  {
    assert (i + 1) * bufSize == i * bufSize + bufSize;
  }

  lemma TooFar(pieces: seq<Piece>, avail: nat, bufSize: nat, i: nat)
    requires i < |pieces| && i > 0 && avail <= bufSize
    ensures LongEnough(pieces, avail, bufSize, i)
  {
    assert i * bufSize == (i - 1) * bufSize + bufSize;
  }

  lemma NoShortPieceStep(pieces: seq<Piece>, avail: nat, bufSize: nat)
    requires bufSize > 0
    ensures NoShortPiece(pieces, avail, bufSize) <==>
      (pieces == [] || avail == 0 || pieces[0] >= Min(bufSize, avail)) &&
      (avail <= bufSize || NoShortPiece(Rest(pieces), avail - bufSize, bufSize))
  {
    if pieces != [] {
      assert LongEnough(pieces, avail, bufSize, 0) <==> avail == 0 || pieces[0] >= Min(bufSize, avail);
    }
    hide LongEnough;
    if avail <= bufSize {
      forall i | 0 < i < |pieces| ensures LongEnough(pieces, avail, bufSize, i) {
        TooFar(pieces, avail, bufSize, i);
      }
    } else {
      forall i {:trigger LongEnough(Rest(pieces), avail - bufSize, bufSize, i)}
        | pieces != [] && 0 <= i < |Rest(pieces)|
        ensures LongEnough(pieces, avail, bufSize, i + 1) <==> LongEnough(Rest(pieces), avail - bufSize, bufSize, i)
      {
        LongEnoughShift(pieces, avail, bufSize, i);
      }
      if pieces != [] && NoShortPiece(Rest(pieces), avail - bufSize, bufSize) {
        forall i | 0 < i < |pieces| ensures LongEnough(pieces, avail, bufSize, i) {
          LongEnoughShift(pieces, avail, bufSize, i - 1);
        }
      }
    }
  }
}
