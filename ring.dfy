/** The fixed-size circular queue used three times by the MJPEG encoder
    (source, sink and output queues of lib/mjpeg_encoder_v4l2.c).

    A ring is its slot contents plus the `head` and `tail` cursors. Enqueue
    writes at `tail` and advances it modulo QueueSize; dequeue reads at `head`
    and advances it. The queue is empty exactly when `head == tail`, and
    nothing checks for a full queue: the pending items are the
    `(tail - head) mod QueueSize` slots from `head` on. */
module Ring {
  import opened MjpegTypes

  datatype Ring<T> = Ring(slots: seq<T>, head: nat, tail: nat)

  predicate WellFormed<T>(r: Ring<T>) {
    |r.slots| == QueueSize && r.head < QueueSize && r.tail < QueueSize
  }

  /** Number of pending items as the cursors show them. */
  function Count<T>(r: Ring<T>): (n: nat)
    requires WellFormed(r)
    ensures n < QueueSize
    ensures n == 0 <==> r.head == r.tail
  {
    if r.head <= r.tail then r.tail - r.head else r.tail + QueueSize - r.head
  }

  /** The pending items, oldest first: what the dequeuer will see. */
  function Pending<T>(r: Ring<T>): (s: seq<T>)
    requires WellFormed(r)
  {
    seq(Count(r), i requires 0 <= i < Count(r) => r.slots[(r.head + i) % QueueSize])
  }

  /** Enqueue: store at `tail`, advance `tail`; no capacity check. */
  function Push<T>(r: Ring<T>, x: T): (r': Ring<T>)
    requires WellFormed(r)
    ensures WellFormed(r')
  {
    Ring(r.slots[r.tail := x], r.head, (r.tail + 1) % QueueSize)
  }

  /** Dequeue: advance `head` (the caller has read `slots[head]`). */
  function Pop<T>(r: Ring<T>): (r': Ring<T>)
    requires WellFormed(r)
    ensures WellFormed(r')
  {
    r.(head := (r.head + 1) % QueueSize)
  }

  /** Enqueue every item of `xs`, first to last. */
  function PushAll<T>(r: Ring<T>, xs: seq<T>): (r': Ring<T>)
    requires WellFormed(r)
    ensures WellFormed(r')
    decreases |xs|
  {
    if xs == [] then r else Push(PushAll(r, xs[..|xs| - 1]), xs[|xs| - 1])
  }

  /** An enqueue makes one more item pending, modulo the ring size: onto
      QueueSize - 1 pending items it wraps the count to zero. */
  lemma PushCount<T>(r: Ring<T>, x: T)
    requires WellFormed(r)
    ensures Count(Push(r, x)) == (Count(r) + 1) % QueueSize
    ensures r.head == Push(r, x).head
  {
  }

  /** Below the overflow point an enqueue appends exactly its item at the
      back and keeps every pending item in place. */
  lemma PushAppends<T>(r: Ring<T>, x: T)
    requires WellFormed(r)
    requires Count(r) < QueueSize - 1
    ensures Pending(Push(r, x)) == Pending(r) + [x]
  {
    var r' := Push(r, x);
    var n := Count(r);
    assert Count(r') == n + 1;
    forall i | 0 <= i < n
      ensures Pending(r')[i] == Pending(r)[i]
    {
      assert (r.head + i) % QueueSize != r.tail;
    }
    assert (r.head + n) % QueueSize == r.tail;
  }

  /** The silent overwrite: an enqueue onto QueueSize - 1 pending items makes
      `head == tail`, so the dequeuer sees an empty queue and all of them,
      and the new item, are lost to it. */
  lemma PushOverwrites<T>(r: Ring<T>, x: T)
    requires WellFormed(r)
    requires Count(r) == QueueSize - 1
    ensures Push(r, x).head == Push(r, x).tail
    ensures Pending(Push(r, x)) == []
  {
  }

  /** A dequeue on a non-empty ring yields the oldest pending item and
      leaves the rest in order. */
  lemma PopFront<T>(r: Ring<T>)
    requires WellFormed(r)
    requires Count(r) > 0
    ensures r.slots[r.head] == Pending(r)[0]
    ensures Count(Pop(r)) == Count(r) - 1
    ensures Pending(Pop(r)) == Pending(r)[1..]
  {
    var r' := Pop(r);
    assert Count(r') == Count(r) - 1;
    forall i | 0 <= i < Count(r')
      ensures Pending(r')[i] == Pending(r)[i + 1]
    {
      assert (r'.head + i) % QueueSize == (r.head + (i + 1)) % QueueSize;
    }
  }

  /** Enqueuing a run of items that fits appends the run in order. */
  lemma {:induction false} PushAllAppends<T>(r: Ring<T>, xs: seq<T>)
    requires WellFormed(r)
    requires Count(r) + |xs| < QueueSize
    ensures Pending(PushAll(r, xs)) == Pending(r) + xs
    ensures PushAll(r, xs).head == r.head
    decreases |xs|
  {
    if xs != [] {
      var init := xs[..|xs| - 1];
      PushAllAppends(r, init);
      PushAppends(PushAll(r, init), xs[|xs| - 1]);
      assert init + [xs[|xs| - 1]] == xs;
    }
  }
}
