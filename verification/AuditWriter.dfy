/** The audit writer as an object; each method is one region under its mutex. */
module AuditWriter {
  import opened AuditQueue

  const QUEUE_CAPACITY: nat := 4096
  const BATCH_SIZE: nat := 64

  class Writer {
    const capacity: nat
    const batchSize: nat
    var queue: Queue
    var started: bool
    var stopped: bool
    var dropped: nat

    ghost predicate Valid()
      reads this
    {
      0 < capacity && 0 < batchSize && |queue| <= capacity
    }

    constructor (capacity: int, batchSize: int)
      ensures Valid() && queue == [] && !started && !stopped && dropped == 0
      ensures this.capacity == if capacity <= 0 then QUEUE_CAPACITY else capacity
      ensures this.batchSize == if batchSize <= 0 then BATCH_SIZE else batchSize
    {
      this.capacity := if capacity <= 0 then QUEUE_CAPACITY else capacity;
      this.batchSize := if batchSize <= 0 then BATCH_SIZE else batchSize;
      queue, started, stopped, dropped := [], false, false, 0;
    }

    method Push(e: AuditEvent)
      requires Valid()
      modifies this`queue, this`dropped
      ensures Valid()
      ensures stopped ==> queue == old(queue) && dropped == old(dropped)
      ensures !stopped ==> queue == Pushed(old(queue), capacity, e)
      ensures !stopped ==> dropped == old(dropped) + if |old(queue)| < capacity then 0 else 1
    {
      if stopped {
        return;
      }
      PushedSize(queue, capacity, e);
      if |queue| >= capacity {
        var victim := OverflowVictim(queue, e);
        if victim >= 0 {
          queue := Without(queue, victim) + [e];
        }
        dropped := dropped + 1;
        return;
      }
      queue := queue + [e];
    }

    /** Takes up to `limit` events from the front. */
    method PopBatch(limit: int) returns (batch: Queue)
      requires Valid()
      modifies this`queue
      ensures Valid()
      ensures batch + queue == old(queue)
      ensures |batch| == if limit <= 0 then 0 else if limit < |old(queue)| then limit else |old(queue)|
    {
      if limit <= 0 || queue == [] {
        return [];
      }
      var n := if limit > |queue| then |queue| else limit;
      batch := queue[..n];
      queue := queue[n..];
    }

    /** Puts an unwritten batch back in front; what no longer fits at the far
        end is dropped. */
    method RestoreBatch(batch: Queue)
      requires Valid()
      modifies this`queue, this`dropped
      ensures Valid()
      ensures queue == Truncated(batch + old(queue), capacity)
      ensures |batch| <= capacity ==> batch <= queue
      ensures queue <= batch + old(queue)
      ensures |batch| + |old(queue)| + old(dropped) == |queue| + dropped
    {
      if batch == [] {
        assert [] + queue == queue;
        return;
      }
      var combined := batch + queue;
      if |combined| > capacity {
        dropped := dropped + (|combined| - capacity);
        combined := combined[..capacity];
      }
      queue := combined;
    }

    method DrainPending() returns (pending: Queue)
      modifies this`queue
      ensures pending == old(queue) && queue == []
    {
      pending := queue;
      queue := [];
    }

    /** Writes what is left, batch by batch, until it is empty or a write fails;
        `outcome(k)` is whether the k-th write succeeds. */
    method FlushRemaining(outcome: nat -> bool) returns (written: Queue, failed: bool)
      requires Valid() && stopped
      modifies this`queue, this`dropped
      ensures Valid() && dropped == old(dropped)
      ensures written + queue == old(queue)
      ensures !failed ==> queue == []
      ensures failed ==> exists k: nat :: !outcome(k)
    {
      written := [];
      var k: nat := 0;
      while queue != []
        invariant Valid() && dropped == old(dropped)
        invariant written + queue == old(queue)
        decreases |queue|
      {
        var batch := PopBatch(batchSize);
        assert written + batch + queue == old(queue);
        if !outcome(k) {
          RestoreBatch(batch);
          return written, true;
        }
        written := written + batch;
        k := k + 1;
      }
      return written, false;
    }
  }

  method OverflowVictim(queue: Queue, e: AuditEvent) returns (v: int)
    ensures v == Victim(queue, e)
  {
    for i := 0 to |queue|
      invariant forall j :: 0 <= j < i ==> !LowPriority(queue[j])
    {
      if LowPriority(queue[i]) {
        return i;
      }
    }
    if LowPriority(e) {
      return -1;
    }
    return 0;
  }

  /** Builds the successor of a stopped writer from the events it left. */
  method Successor(pending: Queue) returns (replacement: Writer)
    ensures fresh(replacement) && replacement.Valid() && !replacement.stopped
    ensures replacement.queue == PushedAll([], QUEUE_CAPACITY, pending)
  {
    replacement := new Writer(QUEUE_CAPACITY, BATCH_SIZE);
    for i := 0 to |pending|
      invariant fresh(replacement) && replacement.Valid() && !replacement.stopped
      invariant replacement.queue == PushedAll([], QUEUE_CAPACITY, pending[..i]) && replacement.capacity == QUEUE_CAPACITY
    {
      assert pending[..i + 1][..i] == pending[..i];
      replacement.Push(pending[i]);
    }
    assert pending[..|pending|] == pending;
  }
}
