# MJPEG encoder bookkeeping of uvc-gadget, in Dafny

This project models the software MJPEG path of the UVC gadget's V4L2 video
source. Captured YUV 4:2:0 frames ("source" items) and free USB sink buffers
("sink" items) wait in two fixed rings of 8 slots. An encode worker takes one
item from the head of each ring together, compresses the frame into the sink
buffer with libjpeg's raw-data interface, and pushes the result onto a third
ring. A single output thread pops each result. It gives the capture buffer
back to the device and then hands the sink buffer to the registered handler.
`v4l2_source` decides whether buffers go through this encoder (ENCODED, when
MJPEG is requested) or pass straight through (DMABUF).

Files and modules:

- `mjpeg_types.dfy`, module `MjpegTypes`: the queue size 8 and the three item
  records. Every pointer is an opaque
  natural-number token.
- `ring.dfy`, module `Ring`: the circular queue as a value, its
  `head`/`tail` cursors and its pending items. An enqueue writes at `tail` and
  advances `tail` modulo 8 with no capacity check. The lemmas give FIFO
  behaviour below 7 pending items and the silent overwrite at 7.
- `codec.dfy`, module `Codec`: `minp`, the plane layout and the row-pointer
  loop of `encodeJPEG`. Row pointers are integer offsets from the frame start.
  libjpeg is assumed to advance `next_scanline` by 16 per `jpeg_write_raw_data`
  call, one MCU row for 2x2 luma sampling (Annex A.2.3 of ITU-T T.81).
- `mjpeg_encoder.dfy`, module `MjpegEncoder`: class `Encoder`. It holds the
  three arrays with their cursors, the `abort` flag, the handler and ghost
  counters of `pthread_cond_signal` calls. Each mutex-protected region is one
  method, and one iteration of each thread is a step method. Each blocking
  dequeue is a single attempt whose result is `Got`, `WouldBlock` or
  `Shutdown` (-1). The module also holds the pure pairing and take decisions,
  the FIFO and drain lemmas, and the `get_200ms_ts` arithmetic.
- `v4l2_source.dfy`, module `V4l2Source`: class `V4l2Source`, the DMABUF/ENCODED
  mode machine. Device, event-loop and handler calls are appended to a
  `calls` log, in the order made, and their results are parameters.

On a full queue the code overwrites silently. It has no codec-failure path
and keeps the unreachable `else if` at lib/mjpeg_encoder_v4l2.c:175. The
model reproduces the overwrite and proves what it does.

## Model

| member | source | states |
|---|---|---|
| `Ring.Count` | lib/mjpeg_encoder_v4l2.c:168 | the pending count is below 8, and it is zero exactly when `head == tail`, the emptiness test every dequeue uses |
| `Ring.PushCount` | lib/mjpeg_encoder_v4l2.c:122-123 | an enqueue raises the pending count by one modulo 8 and leaves `head` alone |
| `Ring.PushAppends` | lib/mjpeg_encoder_v4l2.c:223-225 | with fewer than 7 pending items, an enqueue appends its item at the back and keeps every pending item in place |
| `Ring.PushOverwrites` | lib/mjpeg_encoder_v4l2.c:223-225 | an enqueue onto 7 pending items makes `head == tail`, so the queue reads as empty (silent overwrite, no capacity check) |
| `Ring.PopFront` | lib/mjpeg_encoder_v4l2.c:179-182 | a dequeue on a non-empty ring reads the oldest pending item and leaves the others in order |
| `Ring.PushAllAppends` | lib/v4l2-source.c:131-135 | enqueuing a run of items that fits appends the whole run, in order |
| `Codec.MinP` | lib/mjpeg_encoder_v4l2.c:21-24 | the result is the lower of the two pointers, and it is one of them |
| `Codec.LumaRows` | lib/mjpeg_encoder_v4l2.c:54-55 | the inner luma loop gives row i of batch k the offset (16k+i)*bpl clamped to `Y_max`, and leaves `Y_row` 16 rows further on |
| `Codec.ChromaRows` | lib/mjpeg_encoder_v4l2.c:56-59 | the inner chroma loop gives row i of batch k the offset (8k+i)*(bpl/2) from the U or V plane start, clamped to `U_max`/`V_max`, and advances both row pointers 8 rows |
| `Codec.EncodeJpeg` | lib/mjpeg_encoder_v4l2.c:26-72 | offers `width*height*2` bytes to the codec, makes ceil(height/16) raw-data calls whose batch k is exactly the clamped rows of batch k, and fills the output with the source id, the sink id, the libjpeg byte count and the source's context fields |
| `Codec.CeilIsBatchCount` | lib/mjpeg_encoder_v4l2.c:53 | the loop's stopping point, `16(n-1) < height <= 16n`, fixes n as ceil(height/16) |
| `Codec.BatchesCoverFrame` | lib/mjpeg_encoder_v4l2.c:53-62 | ceil(height/16) batches of 16 rows cover every row, the last batch starts on a real row, and a zero height makes no call |
| `Codec.PlaneLayout` | lib/mjpeg_encoder_v4l2.c:42-51 | with height >= 2, `Y_max`, `U_max` and `V_max` are the starts of the last row of the Y, U and V planes, with `V_max == V + (bpl/2)*(h/2 - 1)`, and the planes follow one another |
| `Codec.LumaRowInPlane` | lib/mjpeg_encoder_v4l2.c:54-55 | every luma row pointer lies in `[0, bpl*(h-1)]` |
| `Codec.ChromaRowsInPlane` | lib/mjpeg_encoder_v4l2.c:56-58 | every U and V row pointer lies between its plane's start and the start of its last row |
| `Codec.LumaRowClamp` | lib/mjpeg_encoder_v4l2.c:54-55 | luma rows inside the frame are passed unclamped, and rows from the last row on are clamped to the last row |
| `Codec.ChromaRowClamp` | lib/mjpeg_encoder_v4l2.c:56-58 | chroma rows inside the h/2 plane rows are passed unclamped, and rows from the last one on are clamped to the plane's last row |
| `MjpegEncoder.TryPair` | lib/mjpeg_encoder_v4l2.c:164-186 | a pair is taken iff both queues have pending items, and it is the two oldest items, whatever `abort` says; otherwise the result is -1 iff `abort` is set |
| `MjpegEncoder.TryTakeOutput` | lib/mjpeg_encoder_v4l2.c:142-162 | an output item is taken iff one is pending, and it is the oldest; the result is -1 only when `abort` is set and the queue is empty |
| `MjpegEncoder.WakesEncoder` | lib/mjpeg_encoder_v4l2.c:226-228 | the enqueue-side wake test holds exactly when the other pairing queue has a pending item |
| `MjpegEncoder.Encoder.Begin` | lib/mjpeg_encoder_v4l2.c:188-212 | stores the handler, sets all six cursors to 0 (every queue empty), clears `abort` and returns 0 |
| `MjpegEncoder.Encoder.Abort` | lib/mjpeg_encoder_v4l2.c:214-218 | sets `abort` and changes nothing else |
| `MjpegEncoder.Encoder.SinkEnqueue` | lib/mjpeg_encoder_v4l2.c:220-232 | the sink ring becomes `Push(old, (sink_id, dest))`, nothing else changes, one signal iff the source queue is non-empty, result 0 |
| `MjpegEncoder.Encoder.SourceEnqueue` | lib/mjpeg_encoder_v4l2.c:234-255 | the source ring becomes `Push(old, item)` with the stride set to `width` when 0 is passed, one signal iff the sink queue is non-empty, result 0 |
| `MjpegEncoder.Encoder.PairDequeue` | lib/mjpeg_encoder_v4l2.c:164-186 | returns `TryPair` of the entry state; both heads advance on success and neither moves otherwise |
| `MjpegEncoder.Encoder.OutputEnqueue` | lib/mjpeg_encoder_v4l2.c:119-128 | the output ring becomes `Push(old, item)`, it always signals once, result 0 |
| `MjpegEncoder.Encoder.OutputDequeue` | lib/mjpeg_encoder_v4l2.c:142-162 | returns `TryTakeOutput` of the entry state and advances `head` only on success |
| `MjpegEncoder.Encoder.WorkerStep` | lib/mjpeg_encoder_v4l2.c:86-92 | on a pair, both heads advance and exactly one output carrying that pair's ids and context is pushed; otherwise no ring changes and the step reports wait or shutdown |
| `MjpegEncoder.Encoder.DispatchStep` | lib/mjpeg_encoder_v4l2.c:103-115 | takes the oldest output, then requeues `source_id` to its device and calls the handler with `sink_id`, in that order, both with the same `bytesused` and `dmabuf = -1` |
| `MjpegEncoder.SinkArrivalWakesIffPairReady` | lib/mjpeg_encoder_v4l2.c:226-228 | below overflow, a sink enqueue signals exactly when it makes a pair available |
| `MjpegEncoder.SourceArrivalWakesIffPairReady` | lib/mjpeg_encoder_v4l2.c:249-251 | below overflow, a source enqueue signals exactly when it makes a pair available |
| `MjpegEncoder.OverflowingSinkArrivalWakesForNothing` | lib/mjpeg_encoder_v4l2.c:223-228 | an overflowing sink enqueue still signals, but the woken worker finds the sink queue empty and keeps waiting |
| `MjpegEncoder.StepPairedInOrder` | lib/mjpeg_encoder_v4l2.c:179-182 | each enqueue that fits, and each paired dequeue, keeps the taken pairs matched by arrival position |
| `MjpegEncoder.PairsFormInArrivalOrder` | lib/mjpeg_encoder_v4l2.c:164-186 | from empty queues and without overflow, the i-th pair taken is the i-th source with the i-th sink, for every interleaving of the two enqueue streams |
| `MjpegEncoder.QueueSizeArrivalsLookEmpty` | lib/mjpeg_encoder_v4l2.c:240-248 | 8 frames enqueued on an empty source queue leave it reading as empty, so none of them can be paired |
| `MjpegEncoder.DrainDeliversAllPending` | lib/mjpeg_encoder_v4l2.c:146-161 | once `abort` is set, the output thread still takes every pending output, oldest first, before it gets -1 |
| `MjpegEncoder.WorkerThenDispatcher` | lib/mjpeg_encoder_v4l2.c:86-115 | a pair encoded onto an idle output queue is the next item the output thread takes; it requeues the pair's source index and then delivers its sink index, both with the encoded size |
| `MjpegEncoder.Deadline200ms` | lib/mjpeg_encoder_v4l2.c:130-140 | the deadline's nanoseconds stay in `[0, 1e9)`, the seconds rise by at most one, and the total equals the time of day plus 200 ms |
| `V4l2Source.V4l2Source.SetFormat` | lib/v4l2-source.c:79-99 | MJPEG makes the source ENCODED, starts the encoder and asks the device for YUV420; any other format makes it DMABUF and leaves the encoder alone; the caller's pixelformat is restored and the device result returned |
| `V4l2Source.V4l2Source.QueueBuffer` | lib/v4l2-source.c:238-253 | ENCODED: pushes `(index, mem)` onto the encoder sink queue, returns 0 and does not touch the device; DMABUF: queues on the device and returns its result |
| `V4l2Source.V4l2Source.VideoProcess` | lib/v4l2-source.c:40-69 | always logs the device dequeue first; a failed dequeue does nothing more; ENCODED pushes the frame with the device's width, height and stride onto the source queue; DMABUF calls the handler |
| `V4l2Source.V4l2Source.StreamOff` | lib/v4l2-source.c:218-236 | aborts the encoder only when ENCODED, always ends in DMABUF, returns the device result |
| `V4l2Source.V4l2Source.ImportBuffers` | lib/v4l2-source.c:115-140 | on allocation failure returns -ENOMEM with no sink set and nothing enqueued; otherwise copies index and mem of each buffer, enqueues all of them in order on the sink queue in either mode, and sets `nbufs` |
| `V4l2Source.V4l2Source.FreeBuffers` | lib/v4l2-source.c:169-180 | leaves no sink set (`buffers` null, `nbufs` 0) and returns the device result |

## Left out

- Threads, mutexes and condition variables are not modelled. `pthread_create`, the four workers and the endless thread loops are left out. Each locked region is one atomic method, and each thread body is one step.
- The timed wait is not modelled: no `gettimeofday`, no 200 ms timeout and no spurious wakeups. A wait that would loop is reported as `WouldBlock`. Only the deadline arithmetic is kept, with the time of day as a parameter.
- MjpegEncoder.Encoder.PairDequeue: nothing runs during the modelled wait. In the source, a pair that arrives during the last timed wait after `abort` is set is not taken, because the check after the wait tests only `abort`.
- libjpeg is a foreign library and is not modelled. That covers the encoder settings and quality 50 (`MJPEG_ENCODER_QUALITY`), the four encode workers (`ENCODE_THREAD_NUM`), the JPEG bitstream, and `jpeg_mem_dest` reallocating a buffer that is too small. Its error exit on a zero-height frame is also left out. The encoded byte count is a parameter (`jpegLen`).
- Codec.EncodeJpeg: assumes `jpeg_write_raw_data` advances `next_scanline` by 16 per call, as libjpeg does for 2x2-sampled raw data. libjpeg's source is not part of this model.
- Integers are unbounded. The 32-bit wrap-around of `width*height*2`, `bpl*height` and the pointer sums is not modelled, and neither is pointer arithmetic below the frame start at height 0. Offsets are plain integers.
- Memory contents, `calloc` and `free` are left out. An allocation result is a boolean parameter, and `free` only drops the reference.
- The `printf` diagnostics are left out, including the unreachable `else if (encoder->abort)` branch, which has no effect.
- V4l2Source.V4l2Source.SetFormat: the model does not capture what `v4l2_set_format` writes back into `fmt` or into the device's format. Only the pixelformat write and its restore are modelled.
- The thin device wrappers of lib/v4l2-source.c are `v4l2_*`/`events_*`/`malloc` plumbing and are left out: `set_frame_rate`, `alloc_buffers`, `export_buffers`, `mmap_buffers`, `stream_on`, `destroy`, `create` and `init`. The constructors only reproduce the zero-filled state left by `create`.
- Shutdown latency, worst-case JPEG size and JPEG decodability depend on time or on libjpeg and are not stated.
