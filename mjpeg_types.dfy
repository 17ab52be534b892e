/** Constants and queue items of the V4L2 MJPEG encoder
    (include/uvcgadget/mjpeg_encoder_v4l2.h).

    Pointers of the C structs (`void *mem`, `void *dest`, `handler_data`, the
    `video_source` and `v4l2_device` back-references, the handler function
    pointer) carry no meaning for the queue bookkeeping: they are opaque
    natural-number tokens that are copied, never dereferenced. */
module MjpegTypes {

  /** MJPEG_ENCODER_BUFFER_QUEUE_SIZE: slots in each of the three rings. */
  const QueueSize: nat := 8

  /** An opaque address (a buffer, a back-reference, a context token). */
  type Ptr = nat
  /** An opaque address of a `video_source_buffer_handler_t`. */
  type Handler = nat

  /** struct source_item_t: one captured frame waiting for a destination. */
  datatype SourceItem = SourceItem(
    sourceId: int,
    mem: Ptr,
    width: nat,
    height: nat,
    bytePerLine: nat,
    handlerData: Ptr,
    src: Ptr,
    vdev: Ptr)

  /** struct sink_item_t: one destination buffer waiting for a frame. */
  datatype SinkItem = SinkItem(sinkId: int, dest: Ptr)

  /** struct output_item_t: one finished encode waiting for the dispatcher. */
  datatype OutputItem = OutputItem(
    sourceId: int,
    sinkId: int,
    bytesused: nat,
    handlerData: Ptr,
    src: Ptr,
    vdev: Ptr)

  /** The fields of struct video_buffer that this core reads or writes. */
  datatype VideoBuffer = VideoBuffer(index: int, mem: Ptr, bytesused: nat, dmabuf: int)

  /** Outcome of one attempt of a dequeue that waits on a condition variable:
      an item, "keep waiting" (the timed wait would loop), or shutdown (-1). */
  datatype Take<T> = Got(item: T) | WouldBlock | Shutdown

  /** The value a zero-filled C struct holds, used for never-written slots. */
  const NoSource := SourceItem(0, 0, 0, 0, 0, 0, 0, 0)
  const NoSink := SinkItem(0, 0)
  const NoOutput := OutputItem(0, 0, 0, 0, 0, 0)
}
