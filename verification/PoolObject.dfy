/** The thread pool with the fields and arrays of the original, updated in place.
    Each method is one critical section and is tied to the section's function. */
module PoolObject {
  import opened PoolCore

  class ThreadPool {
    var taskQ: array<Task>
    var queueCapacity: nat
    var queueSize: nat
    var queueFront: nat
    var queueRear: nat
    var threadIDs: array<nat>
    var minNum: nat
    var maxNum: nat
    var busyNum: int
    var liveNum: int
    var exitNum: int
    var shutdown: bool
    var numberE: nat
    var nextId: nat  // the id the next created thread will get; ids are never zero

    ghost predicate Valid()
      reads this, taskQ, threadIDs
    {
      && taskQ.Length == queueCapacity && threadIDs.Length == maxNum && nextId > 0
      && ValidParams(P()) && CoreOk(P(), Shared())
    }

    ghost function P(): Params
      reads this
    {
      Params(minNum, maxNum, queueCapacity, numberE)
    }

    ghost function Shared(): Core
      reads this, taskQ, threadIDs
    {
      Core(Ring(taskQ[..], queueFront, queueRear, queueSize), liveNum, exitNum, busyNum, shutdown, threadIDs[..])
    }

    /** What no critical section touches. */
    twostate predicate SameShape()
      reads this
    {
      && taskQ == old(taskQ) && threadIDs == old(threadIDs) && P() == old(P())
    }

    /** `threadPoolCreate`: an empty queue and `min` workers in the first slots. */
    constructor (min: nat, max: nat, queueSize: nat, budget: nat, idle: Task)
      requires ValidParams(Params(min, max, queueSize, budget))
      ensures Valid() && fresh(taskQ) && fresh(threadIDs) && nextId == min + 1
      ensures P() == Params(min, max, queueSize, budget)
      ensures Contents(Shared().ring) == [] && threadIDs[..] == seq(max, j => if j < min then j + 1 else 0)
      ensures liveNum == min && exitNum == 0 && busyNum == 0 && !shutdown
    {
      threadIDs := new nat[max](j => 0);
      minNum := min;
      maxNum := max;
      busyNum := 0;
      liveNum := min;
      exitNum := 0;
      numberE := budget;
      taskQ := new Task[queueSize](j => idle);
      queueCapacity := queueSize;
      this.queueSize := 0;
      queueFront := 0;
      queueRear := 0;
      shutdown := false;
      nextId := 1;
      new;
      var i := 0;
      while i < min
        invariant i <= min && nextId == i + 1
        invariant fresh(threadIDs) && fresh(taskQ) && taskQ != threadIDs as object
        invariant threadIDs.Length == max && taskQ.Length == queueSize
        invariant forall j :: 0 <= j < max ==> threadIDs[j] == if j < i then j + 1 else 0
        modifies this`nextId, threadIDs
      {
        threadIDs[i] := nextId;
        nextId := nextId + 1;
        i := i + 1;
      }
      Wrap(0, queueSize);
    }

    /** One pass of `threadPoolAdd` under `mutexPool`. */
    method Add(task: Task) returns (outcome: AddOutcome)
      requires Valid()
      modifies this`queueRear, this`queueSize, taskQ
      ensures SameShape() && Valid()
      ensures (Shared(), outcome) == AddPass(old(Shared()), task)
    {
      if queueSize == queueCapacity && !shutdown {
        return AddWaits;
      }
      if shutdown {
        return AddRefused;
      }
      PutAppends(Shared().ring, task);
      taskQ[queueRear] := task;
      queueRear := (queueRear + 1) % queueCapacity;
      queueSize := queueSize + 1;
      outcome := AddQueued;
    }

    /** One pass of `worker` under `mutexPool`, from the test of its inner loop. */
    method Work() returns (outcome: WorkOutcome)
      requires Valid()
      modifies this`queueFront, this`queueSize
      ensures SameShape() && Valid()
      ensures (Shared(), outcome) == WorkPass(old(Shared()))
    {
      if queueSize == 0 && !shutdown {
        return WorkWaits;
      }
      if shutdown {
        return WorkQuits;
      }
      TakeDropsOldest(Shared().ring);
      outcome := WorkTakes(taskQ[queueFront]);
      queueFront := (queueFront + 1) % queueCapacity;
      queueSize := queueSize - 1;
    }

    /** The pass of a worker that returns from its wait with `mutexPool` held. */
    method Wake() returns (outcome: WorkOutcome)
      requires Valid()
      modifies this`queueFront, this`queueSize, this`exitNum, this`liveNum
      ensures SameShape() && Valid()
      ensures (Shared(), outcome) == WakePass(old(P()), old(Shared()))
    {
      if exitNum > 0 {
        exitNum := exitNum - 1;
        if liveNum > minNum {
          liveNum := liveNum - 1;
          return WorkRetires;
        }
      }
      outcome := Work();
    }

    /** The manager's growing loop, with `mutexPool` held throughout. */
    method Grow() returns (counter: nat)
      requires Valid()
      modifies this`liveNum, this`nextId, threadIDs
      ensures SameShape() && Valid()
      ensures (threadIDs[..], counter) == GrowScan(old(P()), old(threadIDs[..]), old(liveNum), 0, 0, old(nextId))
      ensures Shared() == old(Shared()).(live := old(liveNum) + counter, slots := threadIDs[..])
      ensures nextId == old(nextId) + counter
    {
      counter := 0;
      var i := 0;
      ghost var result := GrowScan(P(), threadIDs[..], liveNum, 0, 0, nextId);
      while i < maxNum && counter < numberE && liveNum < maxNum
        invariant i <= maxNum && SameShape() && Valid()
        invariant result == GrowScan(P(), threadIDs[..], liveNum, i, counter, nextId)
        invariant liveNum == old(liveNum) + counter && nextId == old(nextId) + counter
        invariant Shared() == old(Shared()).(live := liveNum, slots := threadIDs[..])
      {
        if threadIDs[i] == 0 {
          ghost var before := threadIDs[..];
          threadIDs[i] := nextId;
          assert threadIDs[..] == before[i := nextId];
          nextId := nextId + 1;
          counter := counter + 1;
          liveNum := liveNum + 1;
        }
        i := i + 1;
      }
    }

    /** `threadExit`: the calling thread's slot is cleared. */
    method ThreadExit(self: nat)
      requires Valid()
      modifies threadIDs
      ensures SameShape() && Valid()
      ensures Shared() == old(Shared()).(slots := ClearSlot(old(threadIDs[..]), self, 0))
    {
      var i := 0;
      while i < maxNum
        invariant i <= maxNum && SameShape() && Valid() && Shared() == old(Shared())
        invariant ClearSlot(threadIDs[..], self, 0) == ClearSlot(threadIDs[..], self, i)
      {
        if threadIDs[i] == self {
          threadIDs[i] := 0;
          assert threadIDs[..] == old(threadIDs[..])[i := 0];
          return;
        }
        i := i + 1;
      }
    }
  }
}
