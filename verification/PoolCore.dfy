/** The shared fields of the thread pool as a value, and the critical sections of
    the pool as functions on it.  `PoolObject` implements each section on the
    arrays and fields of the original; `PoolSystem` interleaves them. */
module PoolCore {
  import opened Counting

  /** A queued call: the function's address and its argument. */
  datatype Task = Task(entry: nat, arg: nat)

  datatype Params = Params(minNum: nat, maxNum: nat, capacity: nat, numberE: nat)

  /** What a caller of `threadPoolCreate` passes, and NUMBERE. */
  predicate ValidParams(p: Params) {
    0 < p.minNum <= p.maxNum && 0 < p.capacity && 0 < p.numberE
  }

  // ---------------------------------------------------------------- the ring

  datatype Ring = Ring(cells: seq<Task>, front: nat, rear: nat, size: nat)

  predicate RingOk(r: Ring) {
    && r.front < |r.cells| && r.rear < |r.cells| && r.size <= |r.cells|
    && r.rear == (r.front + r.size) % |r.cells|
  }

  /** The queued tasks, oldest first. */
  function Contents(r: Ring): seq<Task>
    requires RingOk(r)
  {
    seq(r.size, i requires 0 <= i < r.size => r.cells[(r.front + i) % |r.cells|])
  }

  function Put(r: Ring, t: Task): Ring
    requires RingOk(r)
  {
    r.(cells := r.cells[r.rear := t], rear := (r.rear + 1) % |r.cells|, size := r.size + 1)
  }

  function Head(r: Ring): Task
    requires RingOk(r)
  {
    r.cells[r.front]
  }

  function Take(r: Ring): Ring
    requires RingOk(r) && r.size > 0
  {
    r.(front := (r.front + 1) % |r.cells|, size := r.size - 1)
  }

  /** Below twice the capacity, the remainder is a conditional subtraction. */
  lemma Wrap(x: nat, n: nat)
    requires 0 < n && x < 2 * n
    ensures x % n == if x < n then x else x - n
  {
  }

  /** A bounded circular queue is a queue: `Put` appends at the end. */
  lemma PutAppends(r: Ring, t: Task)
    requires RingOk(r) && r.size < |r.cells|
    ensures RingOk(Put(r, t))
    ensures Contents(Put(r, t)) == Contents(r) + [t]
  {
    var n := |r.cells|;
    Wrap(r.front + r.size, n);
    Wrap(r.rear + 1, n);
    Wrap(r.front + r.size + 1, n);
    var q := Put(r, t);
    forall i | 0 <= i < q.size
      ensures Contents(q)[i] == (Contents(r) + [t])[i]
    {
      Wrap(r.front + i, n);
    }
  }

  /** ... and `Take` removes the oldest. */
  lemma TakeDropsOldest(r: Ring)
    requires RingOk(r) && r.size > 0
    ensures RingOk(Take(r))
    ensures Contents(r) == [Head(r)] + Contents(Take(r))
  {
    var n := |r.cells|;
    Wrap(r.front, n);
    Wrap(r.front + r.size, n);
    Wrap(r.front + 1, n);
    var q := Take(r);
    Wrap(q.front + q.size, n);
    forall i | 0 <= i < r.size
      ensures Contents(r)[i] == ([Head(r)] + Contents(q))[i]
    {
      Wrap(r.front + i, n);
      if i > 0 {
        Wrap(q.front + (i - 1), n);
      }
    }
  }

  // ----------------------------------------------------------- the slot table

  predicate Occupied(id: nat) { id != 0 }

  predicate Vacant(id: nat) { id == 0 }

  predicate AnyId(id: nat) { true }

  /** Has the manager's scan loop another iteration to run? */
  predicate GrowContinues(p: Params, slots: seq<nat>, live: int, i: nat, created: nat) {
    i < |slots| && created < p.numberE && live < p.maxNum
  }

  /** The manager's growing scan from slot `i` on; thread ids `next`, `next + 1`, ...
      are handed out in order.  The result is the table and the number of threads made. */
  function GrowScan(p: Params, slots: seq<nat>, live: int, i: nat, created: nat, next: nat)
    : (r: (seq<nat>, nat))
    ensures |r.0| == |slots| && r.1 >= created
    decreases |slots| - i
  {
    if !GrowContinues(p, slots, live, i, created) then (slots, created)
    else if slots[i] == 0 then GrowScan(p, slots[i := next], live + 1, i + 1, created + 1, next + 1)
    else GrowScan(p, slots, live, i + 1, created, next)
  }

  /** What one scan does, from any point of it: the number of new threads is the
      smaller of the remaining budget and the vacant slots ahead, whenever the
      table's accounting leaves at least as much room below `maxNum`. */
  lemma {:induction false} GrowScanCounts(p: Params, slots: seq<nat>, live: int, i: nat, created: nat, next: nat)
    requires i <= |slots| && created <= p.numberE && next > 0
    requires live + Count(slots[i..], Vacant) <= p.maxNum
    ensures var r := GrowScan(p, slots, live, i, created, next);
      var vacant := Count(slots[i..], Vacant);
      && r.1 - created == (if vacant < p.numberE - created then vacant else p.numberE - created)
      && Count(r.0, Occupied) == Count(slots, Occupied) + (r.1 - created)
      && live + (r.1 - created) <= p.maxNum
      && (forall j :: 0 <= j < |slots| && (j < i || slots[j] != 0) ==> r.0[j] == slots[j])
      && (forall j :: 0 <= j < |slots| && r.0[j] != slots[j] ==> next <= r.0[j] < next + (r.1 - created))
    decreases |slots| - i
  {
    if i < |slots| {
      assert slots[i..][0] == slots[i] && slots[i..][1..] == slots[i + 1..];
      if GrowContinues(p, slots, live, i, created) {
        if slots[i] == 0 {
          var filled := slots[i := next];
          assert filled[i + 1..] == slots[i + 1..];
          CountUpdate(slots, i, next, Occupied);
          GrowScanCounts(p, filled, live + 1, i + 1, created + 1, next + 1);
        } else {
          GrowScanCounts(p, slots, live, i + 1, created, next);
        }
      } else if created < p.numberE {
        assert live >= p.maxNum;
      }
    }
  }

  /** The scan fills the lowest vacant slots first. */
  lemma {:induction false} LowestFirst(p: Params, slots: seq<nat>, live: int, i: nat, created: nat, next: nat)
    requires i <= |slots| && next > 0
    ensures var r := GrowScan(p, slots, live, i, created, next).0;
      && (forall j :: 0 <= j < |slots| && (j < i || slots[j] != 0) ==> r[j] == slots[j])
      && (forall j, k :: i <= j < k < |slots| && r[k] != slots[k] ==> r[j] != 0)
    decreases |slots| - i
  {
    if GrowContinues(p, slots, live, i, created) {
      if slots[i] == 0 {
        LowestFirst(p, slots[i := next], live + 1, i + 1, created + 1, next + 1);
      } else {
        LowestFirst(p, slots, live, i + 1, created, next);
      }
    }
  }

  /** Taken in one piece, the manager's scan creates exactly min(NUMBERE, vacant
      slots) threads, fills only the lowest vacant slots and respects `maxNum`, whenever every
      thread charged to `live` still owns a slot. */
  lemma GrowIsExact(p: Params, slots: seq<nat>, live: int, next: nat)
    requires |slots| == p.maxNum && next > 0 && live <= Count(slots, Occupied)
    ensures var r := GrowScan(p, slots, live, 0, 0, next);
      var vacant := Count(slots, Vacant);
      && r.1 == (if vacant < p.numberE then vacant else p.numberE)
      && live + r.1 <= p.maxNum
      && Count(r.0, Occupied) == Count(slots, Occupied) + r.1
      && (forall j :: 0 <= j < |slots| && slots[j] != 0 ==> r.0[j] == slots[j])
      && (forall j :: 0 <= j < |slots| && r.0[j] != slots[j] ==> next <= r.0[j] < next + r.1)
      && (forall j, k :: 0 <= j < k < |slots| && r.0[k] != slots[k] ==> r.0[j] != 0)
  {
    CountSum(slots, Occupied, Vacant, AnyId);
    CountAll(slots, AnyId);
    assert slots[0..] == slots;
    LowestFirst(p, slots, live, 0, 0, next);
    GrowScanCounts(p, slots, live, 0, 0, next);
  }

  /** `threadExit`: the first slot holding `id` is cleared. */
  function ClearSlot(slots: seq<nat>, id: nat, i: nat): (r: seq<nat>)
    ensures |r| == |slots|
    decreases |slots| - i
  {
    if i >= |slots| then slots
    else if slots[i] == id then slots[i := 0]
    else ClearSlot(slots, id, i + 1)
  }

  lemma {:induction false} ClearSlotAt(slots: seq<nat>, id: nat, i: nat, home: nat)
    requires i <= home < |slots| && slots[home] == id
    requires forall j :: 0 <= j < |slots| && slots[j] == id ==> j == home
    ensures ClearSlot(slots, id, i) == slots[home := 0]
    decreases |slots| - i
  {
    if i < home {
      ClearSlotAt(slots, id, i + 1, home);
    }
  }

  // ------------------------------------------------------- critical sections

  /** Everything the pool's threads share, apart from condition variables. */
  datatype Core = Core(ring: Ring, live: int, exitNum: int, busy: int, shutdown: bool, slots: seq<nat>)

  predicate CoreOk(p: Params, c: Core) {
    RingOk(c.ring) && |c.ring.cells| == p.capacity && |c.slots| == p.maxNum
  }

  datatype AddOutcome = AddWaits | AddRefused | AddQueued

  /** One pass of `threadPoolAdd` under the lock, up to waiting or leaving. */
  function AddPass(c: Core, t: Task): (r: (Core, AddOutcome))
    requires RingOk(c.ring)
    ensures RingOk(r.0.ring) && |r.0.ring.cells| == |c.ring.cells|
  {
    if c.ring.size == |c.ring.cells| && !c.shutdown then (c, AddWaits)
    else if c.shutdown then (c, AddRefused)
    else PutAppends(c.ring, t); (c.(ring := Put(c.ring, t)), AddQueued)
  }

  datatype WorkOutcome = WorkWaits | WorkQuits | WorkRetires | WorkTakes(task: Task)

  /** One pass of `worker` under the lock from the loop test, up to waiting or unlocking. */
  function WorkPass(c: Core): (r: (Core, WorkOutcome))
    requires RingOk(c.ring)
    ensures RingOk(r.0.ring) && |r.0.ring.cells| == |c.ring.cells|
  {
    if c.ring.size == 0 && !c.shutdown then (c, WorkWaits)
    else if c.shutdown then (c, WorkQuits)
    else TakeDropsOldest(c.ring); (c.(ring := Take(c.ring)), WorkTakes(Head(c.ring)))
  }

  /** The pass of a worker that comes back from its wait: the retirement budget first. */
  function WakePass(p: Params, c: Core): (r: (Core, WorkOutcome))
    requires RingOk(c.ring)
    ensures RingOk(r.0.ring) && |r.0.ring.cells| == |c.ring.cells|
  {
    if c.exitNum > 0 then
      var d := c.(exitNum := c.exitNum - 1);
      if c.live > p.minNum then (d.(live := c.live - 1), WorkRetires) else WorkPass(d)
    else WorkPass(c)
  }
}
