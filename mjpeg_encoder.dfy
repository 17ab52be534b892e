/** The queue bookkeeping of the V4L2 MJPEG encoder (lib/mjpeg_encoder_v4l2.c).

    Three rings of QueueSize slots (source frames, sink buffers, finished
    encodes) with `head`/`tail` cursors and an `abort` flag. Each region the
    C code runs under a mutex is one atomic method of `Encoder`. A
    condition-variable wait becomes one non-blocking attempt (`Take`): the
    item, `WouldBlock` where the thread would wait for another 200 ms, or
    `Shutdown` where it returns -1. `pthread_cond_signal` calls are counted in
    ghost fields, one per condition variable. The encode threads and the
    output thread are modelled one loop iteration at a time. */
module MjpegEncoder {
  import opened MjpegTypes
  import opened Ring
  import Codec

  /** The pairing decision of source_sink_dequeue: a pair only when both
      queues hold an item (even when `abort` is set); otherwise -1 once
      `abort` is set, and another timed wait before that. */
  function TryPair(source: Ring<SourceItem>, sink: Ring<SinkItem>, abort: bool)
    : (t: Take<(SourceItem, SinkItem)>)
    requires WellFormed(source) && WellFormed(sink)
    ensures t.Got? <==> Pending(source) != [] && Pending(sink) != []
    ensures t.Got? ==> t.item == (Pending(source)[0], Pending(sink)[0])
    ensures t.Shutdown? <==> abort && (Pending(source) == [] || Pending(sink) == [])
  {
    if source.head != source.tail && sink.head != sink.tail then
      PopFront(source);
      PopFront(sink);
      Got((source.slots[source.head], sink.slots[sink.head]))
    else if abort then Shutdown
    else WouldBlock
  }

  /** The decision of output_dequeue: the oldest finished encode whenever
      there is one, whatever `abort` says; -1 only once `abort` is set and
      the queue is empty. */
  function TryTakeOutput(output: Ring<OutputItem>, abort: bool): (t: Take<OutputItem>)
    requires WellFormed(output)
    ensures t.Got? <==> Pending(output) != []
    ensures t.Got? ==> t.item == Pending(output)[0]
    ensures t.Shutdown? <==> abort && Pending(output) == []
  {
    if output.head != output.tail then
      PopFront(output);
      Got(output.slots[output.head])
    else if abort then Shutdown
    else WouldBlock
  }

  /** The wake test of the two pairing enqueues: signal the encode
      condition when the OTHER queue is non-empty. */
  function WakesEncoder<T>(other: Ring<T>): (b: bool)
    requires WellFormed(other)
    ensures b <==> Pending(other) != []
  {
    other.head != other.tail
  }

  /** What the output thread does with one finished encode. */
  datatype DispatchEvent =
    | RequeueSource(vdev: Ptr, buf: VideoBuffer)
    | DeliverSink(handler: Handler, handlerData: Ptr, src: Ptr, buf: VideoBuffer)

  /** The two calls of one output_thread iteration, in order: give the
      capture buffer back to the device, then hand the sink buffer to the
      handler; both with the encoded size and no dmabuf. */
  function DispatchEvents(handler: Handler, o: OutputItem): seq<DispatchEvent> {
    [ RequeueSource(o.vdev, VideoBuffer(o.sourceId, 0, o.bytesused, -1)),
      DeliverSink(handler, o.handlerData, o.src, VideoBuffer(o.sinkId, 0, o.bytesused, -1)) ]
  }

  class Encoder {
    const sourceQueue: array<SourceItem>
    var sourceHead: nat
    var sourceTail: nat
    const sinkQueue: array<SinkItem>
    var sinkHead: nat
    var sinkTail: nat
    const outputQueue: array<OutputItem>
    var outputHead: nat
    var outputTail: nat
    var handler: Handler
    var abort: bool
    /** pthread_cond_signal calls on encode_cond_var and output_cond_var. */
    ghost var encodeSignals: nat
    ghost var outputSignals: nat

    ghost predicate Valid()
      reads this
    {
      && sourceQueue.Length == QueueSize
      && sinkQueue.Length == QueueSize
      && outputQueue.Length == QueueSize
      && sourceHead < QueueSize && sourceTail < QueueSize
      && sinkHead < QueueSize && sinkTail < QueueSize
      && outputHead < QueueSize && outputTail < QueueSize
    }

    ghost function SourceRing(): (r: Ring<SourceItem>)
      reads this, sourceQueue
      requires Valid()
      ensures WellFormed(r)
    {
      Ring(sourceQueue[..], sourceHead, sourceTail)
    }

    ghost function SinkRing(): (r: Ring<SinkItem>)
      reads this, sinkQueue
      requires Valid()
      ensures WellFormed(r)
    {
      Ring(sinkQueue[..], sinkHead, sinkTail)
    }

    ghost function OutputRing(): (r: Ring<OutputItem>)
      reads this, outputQueue
      requires Valid()
      ensures WellFormed(r)
    {
      Ring(outputQueue[..], outputHead, outputTail)
    }

    /** The zero-filled encoder embedded in a freshly created v4l2_source. */
    constructor ()
      ensures Valid() && fresh(sourceQueue) && fresh(sinkQueue) && fresh(outputQueue)
      ensures Pending(SourceRing()) == [] && Pending(SinkRing()) == []
      ensures Pending(OutputRing()) == []
      ensures !abort && handler == 0
      ensures encodeSignals == 0 && outputSignals == 0
    {
      sourceQueue := new SourceItem[QueueSize](_ => NoSource);
      sinkQueue := new SinkItem[QueueSize](_ => NoSink);
      outputQueue := new OutputItem[QueueSize](_ => NoOutput);
      sourceHead, sourceTail := 0, 0;
      sinkHead, sinkTail := 0, 0;
      outputHead, outputTail := 0, 0;
      handler := 0;
      abort := false;
      encodeSignals, outputSignals := 0, 0;
    }

    /** mjpeg_begin: store the handler, reset the six cursors (every queue
        reads as empty; slot contents are left as they were) and clear
        `abort`. Starting the threads is not modelled. */
    method Begin(h: Handler) returns (r: int)
      requires Valid()
      modifies this`handler, this`abort
      modifies this`sourceHead, this`sourceTail, this`sinkHead, this`sinkTail
      modifies this`outputHead, this`outputTail
      ensures Valid() && r == 0
      ensures handler == h && !abort
      ensures sourceHead == 0 && sourceTail == 0 && sinkHead == 0 && sinkTail == 0
      ensures outputHead == 0 && outputTail == 0
      ensures Pending(SourceRing()) == [] && Pending(SinkRing()) == []
      ensures Pending(OutputRing()) == []
    {
      handler := h;
      sourceHead, sourceTail := 0, 0;
      sinkHead, sinkTail := 0, 0;
      outputHead, outputTail := 0, 0;
      abort := false;
      r := 0;
    }

    /** mjpeg_abort: raise the flag, nothing else. */
    method Abort() returns (r: int)
      modifies this`abort
      ensures abort && r == 0
    {
      abort := true;
      r := 0;
    }

    /** mjpeg_sink_enqueue: store at the sink tail and advance it; signal
        the encoders if a source frame is waiting. */
    method SinkEnqueue(sinkId: int, dest: Ptr) returns (r: int)
      requires Valid()
      modifies this`sinkTail, sinkQueue, this`encodeSignals
      ensures Valid() && r == 0
      ensures SinkRing() == Push(old(SinkRing()), SinkItem(sinkId, dest))
      ensures encodeSignals == old(encodeSignals) + (if WakesEncoder(SourceRing()) then 1 else 0)
    {
      sinkQueue[sinkTail] := SinkItem(sinkId, dest);
      sinkTail := (sinkTail + 1) % QueueSize;
      if sourceHead != sourceTail {
        encodeSignals := encodeSignals + 1;
      }
      r := 0;
    }

    /** mjpeg_source_enqueue: a zero stride means "width"; store at the
        source tail and advance it; signal the encoders if a sink buffer
        is waiting. */
    method SourceEnqueue(sourceId: int, mem: Ptr, width: nat, height: nat, bytePerLine: nat,
                         handlerData: Ptr, src: Ptr, vdev: Ptr) returns (r: int)
      requires Valid()
      modifies this`sourceTail, sourceQueue, this`encodeSignals
      ensures Valid() && r == 0
      ensures SourceRing() == Push(old(SourceRing()),
        SourceItem(sourceId, mem, width, height, if bytePerLine == 0 then width else bytePerLine,
                   handlerData, src, vdev))
      ensures encodeSignals == old(encodeSignals) + (if WakesEncoder(SinkRing()) then 1 else 0)
    {
      var stride := bytePerLine;
      if stride == 0 {
        stride := width;
      }
      sourceQueue[sourceTail] := SourceItem(sourceId, mem, width, height, stride, handlerData, src, vdev);
      sourceTail := (sourceTail + 1) % QueueSize;
      if sinkHead != sinkTail {
        encodeSignals := encodeSignals + 1;
      }
      r := 0;
    }

    /** source_sink_dequeue, one attempt: both heads advance together or
        neither does. */
    method PairDequeue() returns (t: Take<(SourceItem, SinkItem)>)
      requires Valid()
      modifies this`sourceHead, this`sinkHead
      ensures Valid()
      ensures t == TryPair(old(SourceRing()), old(SinkRing()), abort)
      ensures SourceRing() == if t.Got? then Pop(old(SourceRing())) else old(SourceRing())
      ensures SinkRing() == if t.Got? then Pop(old(SinkRing())) else old(SinkRing())
    {
      if sourceHead == sourceTail || sinkHead == sinkTail {
        t := if abort then Shutdown else WouldBlock;
        return;
      }
      t := Got((sourceQueue[sourceHead], sinkQueue[sinkHead]));
      sourceHead := (sourceHead + 1) % QueueSize;
      sinkHead := (sinkHead + 1) % QueueSize;
    }

    /** output_enqueue: store at the output tail, advance it, always signal. */
    method OutputEnqueue(item: OutputItem) returns (r: int)
      requires Valid()
      modifies this`outputTail, outputQueue, this`outputSignals
      ensures Valid() && r == 0
      ensures OutputRing() == Push(old(OutputRing()), item)
      ensures outputSignals == old(outputSignals) + 1
    {
      outputQueue[outputTail] := item;
      outputTail := (outputTail + 1) % QueueSize;
      outputSignals := outputSignals + 1;
      r := 0;
    }

    /** output_dequeue, one attempt. */
    method OutputDequeue() returns (t: Take<OutputItem>)
      requires Valid()
      modifies this`outputHead
      ensures Valid()
      ensures t == TryTakeOutput(old(OutputRing()), abort)
      ensures OutputRing() == if t.Got? then Pop(old(OutputRing())) else old(OutputRing())
    {
      if outputHead == outputTail {
        t := if abort then Shutdown else WouldBlock;
        return;
      }
      t := Got(outputQueue[outputHead]);
      outputHead := (outputHead + 1) % QueueSize;
    }

    /** One iteration of encode_thread: take a pair, encode it (libjpeg
        reports `jpegLen` bytes), queue the result for the output thread.
        On Shutdown the thread leaves its loop. */
    method WorkerStep(jpegLen: nat) returns (t: Take<OutputItem>)
      requires Valid()
      modifies this`sourceHead, this`sinkHead, this`outputTail, outputQueue, this`outputSignals
      ensures Valid()
      ensures var p := TryPair(old(SourceRing()), old(SinkRing()), abort);
        && (p.Got? ==>
              && t == Got(Codec.EncodeResult(p.item.0, p.item.1, jpegLen))
              && SourceRing() == Pop(old(SourceRing()))
              && SinkRing() == Pop(old(SinkRing()))
              && OutputRing() == Push(old(OutputRing()), t.item)
              && outputSignals == old(outputSignals) + 1)
        && (!p.Got? ==>
              && t == (if p.Shutdown? then Shutdown else WouldBlock)
              && SourceRing() == old(SourceRing())
              && SinkRing() == old(SinkRing())
              && OutputRing() == old(OutputRing())
              && outputSignals == old(outputSignals))
    {
      var pair := PairDequeue();
      match pair {
        case Got(item) =>
          var output, _, _ := Codec.EncodeJpeg(item.0, item.1, jpegLen);
          var _ := OutputEnqueue(output);
          t := Got(output);
        case WouldBlock =>
          t := WouldBlock;
        case Shutdown =>
          t := Shutdown;
      }
    }

    /** One iteration of output_thread: take a finished encode and emit
        its two calls. On Shutdown the thread leaves its loop. */
    method DispatchStep() returns (t: Take<OutputItem>, events: seq<DispatchEvent>)
      requires Valid()
      modifies this`outputHead
      ensures Valid()
      ensures t == TryTakeOutput(old(OutputRing()), abort)
      ensures OutputRing() == if t.Got? then Pop(old(OutputRing())) else old(OutputRing())
      ensures events == if t.Got? then DispatchEvents(handler, t.item) else []
    {
      t := OutputDequeue();
      events := [];
      if t.Got? {
        var o := t.item;
        var buf := VideoBuffer(o.sourceId, 0, o.bytesused, -1);
        events := events + [RequeueSource(o.vdev, buf)];
        buf := buf.(index := o.sinkId);
        events := events + [DeliverSink(handler, o.handlerData, o.src, buf)];
      }
    }
  }

  // ---------------------------------------------------------------------
  // Wake rule

  /** A sink arrival signals exactly when it makes a pair available (as long
      as it does not overflow the sink ring). */
  lemma SinkArrivalWakesIffPairReady(source: Ring<SourceItem>, sink: Ring<SinkItem>, k: SinkItem)
    requires WellFormed(source) && WellFormed(sink)
    requires Count(sink) < QueueSize - 1
    ensures WakesEncoder(source) <==> TryPair(source, Push(sink, k), false).Got?
  {
    PushAppends(sink, k);
  }

  /** A source arrival signals exactly when it makes a pair available (as
      long as it does not overflow the source ring). */
  lemma SourceArrivalWakesIffPairReady(source: Ring<SourceItem>, sink: Ring<SinkItem>, s: SourceItem)
    requires WellFormed(source) && WellFormed(sink)
    requires Count(source) < QueueSize - 1
    ensures WakesEncoder(sink) <==> TryPair(Push(source, s), sink, false).Got?
  {
    PushAppends(source, s);
  }

  /** An overflowing sink arrival still signals, but the woken encoder finds
      the sink queue empty and keeps waiting. */
  lemma OverflowingSinkArrivalWakesForNothing(source: Ring<SourceItem>, sink: Ring<SinkItem>, k: SinkItem)
    requires WellFormed(source) && WellFormed(sink)
    requires Count(sink) == QueueSize - 1 && Pending(source) != []
    ensures WakesEncoder(source)
    ensures TryPair(source, Push(sink, k), false) == WouldBlock
  {
    PushOverwrites(sink, k);
  }

  // ---------------------------------------------------------------------
  // Pairing order

  /** The events that reach the pairing queues. */
  datatype PairOp = SourceArrives(s: SourceItem) | SinkArrives(k: SinkItem) | WorkerTakes

  datatype PairingState = PairingState(
    source: Ring<SourceItem>,
    sink: Ring<SinkItem>,
    pairs: seq<(SourceItem, SinkItem)>)

  predicate PairingWellFormed(st: PairingState) {
    WellFormed(st.source) && WellFormed(st.sink)
  }

  /** One event, with the effect the encoder's locked methods have on the two
      rings; `pairs` collects what the workers took. `abort` only decides
      between WouldBlock and Shutdown, neither of which moves a cursor. */
  function StepPairing(st: PairingState, op: PairOp): (st': PairingState)
    requires PairingWellFormed(st)
    ensures PairingWellFormed(st')
  {
    match op
    case SourceArrives(s) => st.(source := Push(st.source, s))
    case SinkArrives(k) => st.(sink := Push(st.sink, k))
    case WorkerTakes =>
      match TryPair(st.source, st.sink, false)
      case Got(p) => PairingState(Pop(st.source), Pop(st.sink), st.pairs + [p])
      case _ => st
  }

  function RunPairing(st: PairingState, ops: seq<PairOp>): (st': PairingState)
    requires PairingWellFormed(st)
    ensures PairingWellFormed(st')
    decreases |ops|
  {
    if ops == [] then st
    else StepPairing(RunPairing(st, ops[..|ops| - 1]), ops[|ops| - 1])
  }

  /** An arrival that leaves fewer than QueueSize items pending. */
  predicate Fits(st: PairingState, op: PairOp)
    requires PairingWellFormed(st)
  {
    match op
    case SourceArrives(_) => Count(st.source) < QueueSize - 1
    case SinkArrives(_) => Count(st.sink) < QueueSize - 1
    case WorkerTakes => true
  }

  /** No arrival ever finds QueueSize - 1 items pending in its queue. */
  predicate NoOverflow(st: PairingState, ops: seq<PairOp>)
    requires PairingWellFormed(st)
    decreases |ops|
  {
    ops == [] ||
    (NoOverflow(st, ops[..|ops| - 1]) && Fits(RunPairing(st, ops[..|ops| - 1]), ops[|ops| - 1]))
  }

  /** The source frame an event brings, if any. */
  function SourceOf(op: PairOp): seq<SourceItem> {
    if op.SourceArrives? then [op.s] else []
  }

  /** The sink buffer an event brings, if any. */
  function SinkOf(op: PairOp): seq<SinkItem> {
    if op.SinkArrives? then [op.k] else []
  }

  function ArrivedSources(ops: seq<PairOp>): seq<SourceItem>
    decreases |ops|
  {
    if ops == [] then [] else ArrivedSources(ops[..|ops| - 1]) + SourceOf(ops[|ops| - 1])
  }

  function ArrivedSinks(ops: seq<PairOp>): seq<SinkItem>
    decreases |ops|
  {
    if ops == [] then [] else ArrivedSinks(ops[..|ops| - 1]) + SinkOf(ops[|ops| - 1])
  }

  /** The pairs taken so far are the first arrivals of each stream, matched
      by position, and the rings hold the remaining arrivals in order. */
  ghost predicate PairedInOrder(st: PairingState, sources: seq<SourceItem>, sinks: seq<SinkItem>)
    requires PairingWellFormed(st)
  {
    var n := |st.pairs|;
    && n <= |sources| && n <= |sinks|
    && (forall i :: 0 <= i < n ==> st.pairs[i] == (sources[i], sinks[i]))
    && Pending(st.source) == sources[n..]
    && Pending(st.sink) == sinks[n..]
  }

  /** Each event that fits keeps the pairing in arrival order. */
  lemma StepPairedInOrder(st: PairingState, op: PairOp, sources: seq<SourceItem>, sinks: seq<SinkItem>)
    requires PairingWellFormed(st)
    requires PairedInOrder(st, sources, sinks) && Fits(st, op)
    ensures PairedInOrder(StepPairing(st, op), sources + SourceOf(op), sinks + SinkOf(op))
  {
    var n := |st.pairs|;
    match op {
      case SourceArrives(s) =>
        PushAppends(st.source, s);
        assert (sources + [s])[n..] == sources[n..] + [s];
      case SinkArrives(k) =>
        PushAppends(st.sink, k);
        assert (sinks + [k])[n..] == sinks[n..] + [k];
      case WorkerTakes =>
        if TryPair(st.source, st.sink, false).Got? {
          PopFront(st.source);
          PopFront(st.sink);
          assert sources[n..][1..] == sources[n + 1..];
          assert sinks[n..][1..] == sinks[n + 1..];
        }
    }
  }

  /** FIFO pairing: from empty queues, whatever the interleaving of the two
      arrival streams, the i-th pair the workers take is the i-th source
      frame with the i-th sink buffer, and what is still pending is the
      rest of each stream, in order. */
  lemma {:induction false} PairsFormInArrivalOrder(st: PairingState, ops: seq<PairOp>)
    requires PairingWellFormed(st)
    requires Pending(st.source) == [] && Pending(st.sink) == [] && st.pairs == []
    requires NoOverflow(st, ops)
    ensures var end := RunPairing(st, ops);
      var n := |end.pairs|;
      && n <= |ArrivedSources(ops)| && n <= |ArrivedSinks(ops)|
      && (forall i :: 0 <= i < n ==>
            end.pairs[i] == (ArrivedSources(ops)[i], ArrivedSinks(ops)[i]))
      && Pending(end.source) == ArrivedSources(ops)[n..]
      && Pending(end.sink) == ArrivedSinks(ops)[n..]
    decreases |ops|
  {
    if ops != [] {
      var init := ops[..|ops| - 1];
      PairsFormInArrivalOrder(st, init);
      StepPairedInOrder(RunPairing(st, init), ops[|ops| - 1], ArrivedSources(init), ArrivedSinks(init));
    }
  }

  /** The silent overwrite seen from the worker: QueueSize frames arriving
      on an empty source queue leave it reading as empty, so no pair can be
      formed from any of them. */
  lemma {:induction false} QueueSizeArrivalsLookEmpty(source: Ring<SourceItem>, frames: seq<SourceItem>,
                                                      sink: Ring<SinkItem>)
    requires WellFormed(source) && WellFormed(sink)
    requires Pending(source) == [] && |frames| == QueueSize
    ensures Pending(PushAll(source, frames)) == []
    ensures !TryPair(PushAll(source, frames), sink, false).Got?
  {
    var first := frames[..QueueSize - 1];
    PushAllAppends(source, first);
    PushOverwrites(PushAll(source, first), frames[QueueSize - 1]);
  }

  // ---------------------------------------------------------------------
  // Output side

  /** The output thread after `abort`: take items until output_dequeue
      returns -1. */
  function DrainOutput(output: Ring<OutputItem>): seq<OutputItem>
    requires WellFormed(output)
    decreases Count(output)
  {
    match TryTakeOutput(output, true)
    case Got(o) =>
      PopFront(output);
      [o] + DrainOutput(Pop(output))
    case _ => []
  }

  /** Drain before stop: once `abort` is set, the output thread still
      delivers every finished encode, oldest first, before it stops. */
  lemma {:induction false} DrainDeliversAllPending(output: Ring<OutputItem>)
    requires WellFormed(output)
    ensures DrainOutput(output) == Pending(output)
    decreases Count(output)
  {
    if Pending(output) != [] {
      PopFront(output);
      DrainDeliversAllPending(Pop(output));
    }
  }

  /** A pair taken by a worker, onto an idle output queue, is the next thing
      the output thread takes; it requeues the pair's capture buffer, then
      delivers its sink buffer, both with the encoded size. */
  lemma WorkerThenDispatcher(source: Ring<SourceItem>, sink: Ring<SinkItem>,
                             output: Ring<OutputItem>, abort: bool, jpegLen: nat, h: Handler)
    requires WellFormed(source) && WellFormed(sink) && WellFormed(output)
    requires Pending(output) == []
    requires TryPair(source, sink, abort).Got?
    ensures var o := Codec.EncodeResult(Pending(source)[0], Pending(sink)[0], jpegLen);
      && TryTakeOutput(Push(output, o), abort) == Got(o)
      && DispatchEvents(h, o)[0].buf.index == Pending(source)[0].sourceId
      && DispatchEvents(h, o)[1].buf.index == Pending(sink)[0].sinkId
      && DispatchEvents(h, o)[0].buf.bytesused == jpegLen == DispatchEvents(h, o)[1].buf.bytesused
  {
    var o := Codec.EncodeResult(Pending(source)[0], Pending(sink)[0], jpegLen);
    PushAppends(output, o);
  }

  // ---------------------------------------------------------------------
  // get_200ms_ts

  const NanosPerSecond: int := 1000000000

  datatype Timespec = Timespec(sec: int, nsec: int)

  /** The absolute deadline 200 ms after the time of day `sec`.`usec`, as
      get_200ms_ts normalises it. */
  function Deadline200ms(sec: int, usec: int): (ts: Timespec)
    requires 0 <= usec < 1000000
    ensures 0 <= ts.nsec < NanosPerSecond
    ensures ts.sec * NanosPerSecond + ts.nsec == sec * NanosPerSecond + usec * 1000 + 200 * 1000 * 1000
    ensures ts.sec == sec || ts.sec == sec + 1
  {
    var nsec := usec * 1000 + 200 * 1000 * 1000;
    if nsec >= NanosPerSecond then Timespec(sec + 1, nsec - NanosPerSecond)
    else Timespec(sec, nsec)
  }
}
