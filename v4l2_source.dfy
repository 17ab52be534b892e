/** The V4L2 video source's routing between direct DMABUF hand-off and the
    MJPEG encoder (lib/v4l2-source.c).

    `srcType` is the mode: DMABUF passes captured buffers straight to the
    handler and sink buffers straight to the device; ENCODED feeds both into
    the encoder's queues. The device (`v4l2_*`), the event loop (`events_*`)
    and the handler are outside the model: their results are parameters and
    the calls made to them are appended to `calls`. */
module V4l2Source {
  import opened MjpegTypes
  import opened Ring
  import opened MjpegEncoder

  datatype SourceType = Dmabuf | Encoded

  /** v4l2_fourcc('M', 'J', 'P', 'G') */
  const PixFmtMjpeg: nat := 0x47504A4D
  /** v4l2_fourcc('Y', 'U', '1', '2') */
  const PixFmtYuv420: nat := 0x32315559
  const ENOMEM: int := 12

  /** The caller's struct v4l2_pix_format, which set_format writes to. */
  class PixFormat {
    var width: nat
    var height: nat
    var bytesperline: nat
    var pixelformat: nat

    constructor (width: nat, height: nat, bytesperline: nat, pixelformat: nat)
      ensures this.width == width && this.height == height
      ensures this.bytesperline == bytesperline && this.pixelformat == pixelformat
    {
      this.width, this.height := width, height;
      this.bytesperline, this.pixelformat := bytesperline, pixelformat;
    }
  }

  /** The format the capture device currently delivers (vdev->format). */
  datatype DeviceFormat = DeviceFormat(width: nat, height: nat, bytesperline: nat)

  /** Calls leaving this component, in the order made. */
  datatype ExternalCall =
    | DevSetFormat(pixelformat: nat)
    | DevQueueBuffer(buf: VideoBuffer)
    | DevDequeueBuffer
    | DevStreamOff
    | DevFreeBuffers
    | UnwatchFd
    | HandlerCall(handlerData: Ptr, src: Ptr, buf: VideoBuffer)

  /** The local copy import_buffers keeps of one sink buffer: calloc'ed,
      then `mem` and `index` filled in. */
  function SinkCopy(b: VideoBuffer): VideoBuffer {
    VideoBuffer(b.index, b.mem, 0, 0)
  }

  function SinkItems(bs: seq<VideoBuffer>): (items: seq<SinkItem>)
    ensures |items| == |bs|
    ensures forall i :: 0 <= i < |bs| ==> items[i] == SinkItem(bs[i].index, bs[i].mem)
  {
    seq(|bs|, i requires 0 <= i < |bs| => SinkItem(bs[i].index, bs[i].mem))
  }

  class V4l2Source {
    var srcType: SourceType
    var handlerData: Ptr
    /** &src->src, passed to the handler and stored in source items. */
    const self: Ptr
    /** The address of src->src.handler, registered with the encoder. */
    const handlerRef: Handler
    /** src->vdev and the format it reports. */
    const vdev: Ptr
    var vdevFormat: DeviceFormat
    const encoder: Encoder
    /** buffers_sink: the imported sink buffers (`null` when none). */
    var sinkBuffers: array?<VideoBuffer>
    var nbufs: nat
    var calls: seq<ExternalCall>

    ghost predicate Valid()
      reads this, encoder
    {
      && encoder.Valid()
      && (sinkBuffers == null ==> nbufs == 0)
      && (sinkBuffers != null ==> sinkBuffers.Length == nbufs)
    }

    /** A zero-filled source as v4l2_video_source_create leaves it. */
    constructor (self: Ptr, handlerRef: Handler, vdev: Ptr, vdevFormat: DeviceFormat)
      ensures Valid() && fresh(encoder) && fresh(encoder.sinkQueue) && fresh(encoder.sourceQueue)
      ensures srcType == Dmabuf && sinkBuffers == null && calls == []
      ensures this.self == self && this.handlerRef == handlerRef && this.vdev == vdev
      ensures this.vdevFormat == vdevFormat
    {
      srcType := Dmabuf;
      handlerData := 0;
      this.self, this.handlerRef, this.vdev := self, handlerRef, vdev;
      this.vdevFormat := vdevFormat;
      encoder := new Encoder();
      sinkBuffers := null;
      nbufs := 0;
      calls := [];
    }

    /** v4l2_source_set_format: an MJPEG request makes the source ENCODED,
        starts the encoder and asks the device for YUV 4:2:0; any other
        format makes it DMABUF. The caller's pixelformat is restored and the
        device's result returned. */
    method SetFormat(fmt: PixFormat, deviceResult: int) returns (ret: int)
      requires Valid()
      modifies this`srcType, this`calls, fmt`pixelformat
      modifies encoder`handler, encoder`abort
      modifies encoder`sourceHead, encoder`sourceTail, encoder`sinkHead, encoder`sinkTail
      modifies encoder`outputHead, encoder`outputTail
      ensures Valid()
      ensures ret == deviceResult
      ensures fmt.pixelformat == old(fmt.pixelformat)
      ensures old(fmt.pixelformat) == PixFmtMjpeg ==>
        && srcType == Encoded
        && calls == old(calls) + [DevSetFormat(PixFmtYuv420)]
        && encoder.handler == handlerRef && !encoder.abort
        && Pending(encoder.SourceRing()) == [] && Pending(encoder.SinkRing()) == []
        && Pending(encoder.OutputRing()) == []
      ensures old(fmt.pixelformat) != PixFmtMjpeg ==>
        && srcType == Dmabuf
        && calls == old(calls) + [DevSetFormat(old(fmt.pixelformat))]
        && unchanged(encoder)
    {
      var chosen := fmt.pixelformat;
      if chosen == PixFmtMjpeg {
        srcType := Encoded;
        fmt.pixelformat := PixFmtYuv420;
        var _ := encoder.Begin(handlerRef);
      } else {
        srcType := Dmabuf;
      }
      calls := calls + [DevSetFormat(fmt.pixelformat)];
      ret := deviceResult;
      fmt.pixelformat := chosen;
    }

    /** v4l2_source_queue_buffer: in ENCODED mode a returned sink buffer
        goes to the encoder's sink queue and 0 is returned; otherwise it is
        queued on the device and the device's result returned. */
    method QueueBuffer(buf: VideoBuffer, deviceResult: int) returns (ret: int)
      requires Valid()
      modifies this`calls, encoder`sinkTail, encoder.sinkQueue, encoder`encodeSignals
      ensures Valid()
      ensures old(srcType) == Encoded ==>
        && ret == 0 && calls == old(calls)
        && encoder.SinkRing() == Push(old(encoder.SinkRing()), SinkItem(buf.index, buf.mem))
      ensures old(srcType) == Dmabuf ==>
        && ret == deviceResult && calls == old(calls) + [DevQueueBuffer(buf)]
        && encoder.SinkRing() == old(encoder.SinkRing())
    {
      if srcType == Encoded {
        var _ := encoder.SinkEnqueue(buf.index, buf.mem);
        ret := 0;
        return;
      }
      calls := calls + [DevQueueBuffer(buf)];
      ret := deviceResult;
    }

    /** v4l2_source_video_process: the device dequeue is always made (its
        result and buffer are `dequeueResult` and `buf`). After a successful
        one, an ENCODED source queues the frame for the encoder with the
        device's geometry; a DMABUF source calls the handler directly. After
        a failed one nothing else happens. */
    method VideoProcess(dequeueResult: int, buf: VideoBuffer)
      requires Valid()
      modifies this`calls, encoder`sourceTail, encoder.sourceQueue, encoder`encodeSignals
      ensures Valid()
      ensures dequeueResult < 0 ==>
        calls == old(calls) + [DevDequeueBuffer] && encoder.SourceRing() == old(encoder.SourceRing())
      ensures dequeueResult >= 0 && srcType == Encoded ==>
        && calls == old(calls) + [DevDequeueBuffer]
        && encoder.SourceRing() == Push(old(encoder.SourceRing()),
             SourceItem(buf.index, buf.mem, vdevFormat.width, vdevFormat.height,
                        if vdevFormat.bytesperline == 0 then vdevFormat.width else vdevFormat.bytesperline,
                        handlerData, self, vdev))
      ensures dequeueResult >= 0 && srcType == Dmabuf ==>
        && calls == old(calls) + [DevDequeueBuffer, HandlerCall(handlerData, self, buf)]
        && encoder.SourceRing() == old(encoder.SourceRing())
    {
      calls := calls + [DevDequeueBuffer];
      if dequeueResult < 0 {
        return;
      }
      if srcType == Encoded {
        var _ := encoder.SourceEnqueue(buf.index, buf.mem, vdevFormat.width, vdevFormat.height,
                                       vdevFormat.bytesperline, handlerData, self, vdev);
        return;
      }
      calls := calls + [HandlerCall(handlerData, self, buf)];
    }

    /** v4l2_source_stream_off: stop watching the device, abort the encoder
        if ENCODED, fall back to DMABUF, return the device's result. */
    method StreamOff(deviceResult: int) returns (ret: int)
      requires Valid()
      modifies this`srcType, this`calls, encoder`abort
      ensures Valid()
      ensures ret == deviceResult && srcType == Dmabuf
      ensures calls == old(calls) + [UnwatchFd, DevStreamOff]
      ensures encoder.abort == (old(encoder.abort) || old(srcType) == Encoded)
    {
      calls := calls + [UnwatchFd];
      if srcType == Encoded {
        var _ := encoder.Abort();
      }
      srcType := Dmabuf;
      calls := calls + [DevStreamOff];
      ret := deviceResult;
    }

    /** v4l2_source_import_buffers: drop the previous sink set, allocate a new
        one (`allocOk` is calloc's success), copy each buffer's index and mem
        into it and feed the buffers, in order, to the encoder's sink queue,
        in either mode. */
    method ImportBuffers(buffers: seq<VideoBuffer>, allocOk: bool) returns (ret: int)
      requires Valid()
      modifies this`sinkBuffers, this`nbufs
      modifies encoder`sinkTail, encoder.sinkQueue, encoder`encodeSignals
      ensures Valid()
      ensures !allocOk ==>
        && ret == -ENOMEM && sinkBuffers == null && nbufs == 0
        && encoder.SinkRing() == old(encoder.SinkRing())
      ensures allocOk ==>
        && ret == 0 && sinkBuffers != null && fresh(sinkBuffers)
        && nbufs == |buffers|
        && (forall i :: 0 <= i < |buffers| ==> sinkBuffers[i] == SinkCopy(buffers[i]))
        && encoder.SinkRing() == PushAll(old(encoder.SinkRing()), SinkItems(buffers))
    {
      if sinkBuffers != null {
        sinkBuffers := null;
        nbufs := 0;
      }
      if !allocOk {
        sinkBuffers := null;
        ret := -ENOMEM;
        return;
      }
      var copies := new VideoBuffer[|buffers|](_ => VideoBuffer(0, 0, 0, 0));
      sinkBuffers := copies;
      for i := 0 to |buffers|
        invariant encoder.Valid() && sinkBuffers == copies
        invariant forall j :: 0 <= j < i ==> copies[j] == SinkCopy(buffers[j])
        invariant encoder.SinkRing() == PushAll(old(encoder.SinkRing()), SinkItems(buffers[..i]))
      {
        copies[i] := VideoBuffer(buffers[i].index, buffers[i].mem, 0, 0);
        var _ := encoder.SinkEnqueue(buffers[i].index, buffers[i].mem);
        assert SinkItems(buffers[..i + 1])[..i] == SinkItems(buffers[..i]);
      }
      assert buffers[..|buffers|] == buffers;
      nbufs := |buffers|;
      ret := 0;
    }

    /** v4l2_source_free_buffers: forget the sink set, then return the
        device's result. */
    method FreeBuffers(deviceResult: int) returns (ret: int)
      requires Valid()
      modifies this`sinkBuffers, this`nbufs, this`calls
      ensures Valid()
      ensures sinkBuffers == null && nbufs == 0
      ensures calls == old(calls) + [DevFreeBuffers] && ret == deviceResult
    {
      if sinkBuffers != null {
        sinkBuffers := null;
        nbufs := 0;
      }
      calls := calls + [DevFreeBuffers];
      ret := deviceResult;
    }
  }
}
