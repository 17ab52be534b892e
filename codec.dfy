/** Row-pointer geometry of `encodeJPEG` (lib/mjpeg_encoder_v4l2.c).

    The frame is planar YUV 4:2:0: a luma plane of `height` rows of
    `byte_per_line` bytes, then the U and V planes of `height / 2` rows of
    `byte_per_line / 2` bytes each, with no gap. Pointers are integer offsets
    from the start of the frame (the `mem` pointer is offset 0). libjpeg
    consumes one interleaved MCU row per `jpeg_write_raw_data` call: 16 luma
    rows and 8 rows of each chroma plane for 2x2 luma sampling, as in Annex
    A.2.3 of ITU-T T.81, and advances `next_scanline` by 16. Every row pointer
    handed to it is clamped to the start of its plane's last row, so no row
    pointer lies past the start of its plane's last row. How many bytes
    libjpeg reads from each row is not modelled. */
module Codec {
  import opened MjpegTypes

  /** Luma rows handed to libjpeg per call (the MCU row height). */
  const LumaRowsPerCall: nat := 16
  /** Rows of each chroma plane handed to libjpeg per call. */
  const ChromaRowsPerCall: nat := 8

  /** minp: the lower of two pointers. */
  function MinP(p: int, max: int): (r: int)
    ensures r <= p && r <= max
    ensures r == p || r == max
  {
    if p < max then p else max
  }

  /** Plane starts and last-row starts, as encodeJPEG computes them. */
  datatype Planes = Planes(y: int, u: int, v: int, yMax: int, uMax: int, vMax: int)

  /** The chroma stride `byte_per_line / 2` (stride2). */
  function Stride2(bpl: nat): nat {
    bpl / 2
  }

  function PlanesOf(bpl: nat, height: nat): Planes {
    var stride2 := Stride2(bpl);
    var y := 0;
    var u := y + bpl * height;
    var v := u + stride2 * (height / 2);
    var uMax := v - stride2;
    Planes(y, u, v, u - bpl, uMax, uMax + stride2 * (height / 2))
  }

  /** Row pointers of one `jpeg_write_raw_data` call. */
  datatype RowBatch = RowBatch(yRows: seq<int>, uRows: seq<int>, vRows: seq<int>)

  /** Luma row `i` of batch `k`: row 16k+i of the plane, clamped. */
  function LumaRow(p: Planes, bpl: nat, k: nat, i: nat): int {
    MinP(p.y + (LumaRowsPerCall * k + i) * bpl, p.yMax)
  }

  /** Chroma row `i` of batch `k` of the plane starting at `start`. */
  function ChromaRow(start: int, max: int, stride2: nat, k: nat, i: nat): int {
    MinP(start + (ChromaRowsPerCall * k + i) * stride2, max)
  }

  function Batch(p: Planes, bpl: nat, k: nat): RowBatch {
    RowBatch(
      seq(LumaRowsPerCall, i requires 0 <= i => LumaRow(p, bpl, k, i)),
      seq(ChromaRowsPerCall, i requires 0 <= i => ChromaRow(p.u, p.uMax, Stride2(bpl), k, i)),
      seq(ChromaRowsPerCall, i requires 0 <= i => ChromaRow(p.v, p.vMax, Stride2(bpl), k, i)))
  }

  /** Calls made for a frame of `height` rows: ceil(height / 16). */
  function BatchCount(height: nat): nat {
    (height + LumaRowsPerCall - 1) / LumaRowsPerCall
  }

  /** Capacity offered to jpeg_mem_dest: width * height * 2 bytes. */
  function DestCapacity(width: nat, height: nat): nat {
    width * height * 2
  }

  /** The output record encodeJPEG fills in after jpeg_finish_compress. */
  function EncodeResult(source: SourceItem, sink: SinkItem, jpegLen: nat): OutputItem {
    OutputItem(source.sourceId, sink.sinkId, jpegLen, source.handlerData, source.src, source.vdev)
  }

  lemma MulSucc(a: int, b: int)
    ensures (a + 1) * b == a * b + b
  {
  }

  /** The inner luma loop of one batch: 16 rows from `yRow` on, each
      clamped to `yMax`, with `yRow` advanced past them. */
  method LumaRows(p: Planes, bpl: nat, k: nat, yRow: int) returns (rows: seq<int>, yNext: int)
    requires yRow == p.y + (LumaRowsPerCall * k) * bpl
    ensures rows == Batch(p, bpl, k).yRows
    ensures yNext == p.y + (LumaRowsPerCall * (k + 1)) * bpl
  {
    rows, yNext := [], yRow;
    var i := 0;
    while i < LumaRowsPerCall
      invariant 0 <= i <= LumaRowsPerCall && |rows| == i
      invariant yNext == p.y + (LumaRowsPerCall * k + i) * bpl
      invariant forall j :: 0 <= j < i ==> rows[j] == LumaRow(p, bpl, k, j)
    {
      rows := rows + [MinP(yNext, p.yMax)];
      MulSucc(LumaRowsPerCall * k + i, bpl);
      yNext := yNext + bpl;
      i := i + 1;
    }
  }

  /** The inner chroma loop of one batch: 8 rows of U and of V, each clamped
      to its plane's last row, with both row pointers advanced past them. */
  method ChromaRows(p: Planes, bpl: nat, k: nat, uRow: int, vRow: int)
    returns (uRows: seq<int>, vRows: seq<int>, uNext: int, vNext: int)
    requires uRow == p.u + (ChromaRowsPerCall * k) * Stride2(bpl)
    requires vRow == p.v + (ChromaRowsPerCall * k) * Stride2(bpl)
    ensures uRows == Batch(p, bpl, k).uRows && vRows == Batch(p, bpl, k).vRows
    ensures uNext == p.u + (ChromaRowsPerCall * (k + 1)) * Stride2(bpl)
    ensures vNext == p.v + (ChromaRowsPerCall * (k + 1)) * Stride2(bpl)
  {
    var stride2 := Stride2(bpl);
    uRows, vRows, uNext, vNext := [], [], uRow, vRow;
    var i := 0;
    while i < ChromaRowsPerCall
      invariant 0 <= i <= ChromaRowsPerCall && |uRows| == i && |vRows| == i
      invariant uNext == p.u + (ChromaRowsPerCall * k + i) * stride2
      invariant vNext == p.v + (ChromaRowsPerCall * k + i) * stride2
      invariant forall j :: 0 <= j < i ==> uRows[j] == ChromaRow(p.u, p.uMax, stride2, k, j)
      invariant forall j :: 0 <= j < i ==> vRows[j] == ChromaRow(p.v, p.vMax, stride2, k, j)
    {
      uRows := uRows + [MinP(uNext, p.uMax)];
      vRows := vRows + [MinP(vNext, p.vMax)];
      MulSucc(ChromaRowsPerCall * k + i, stride2);
      uNext := uNext + stride2;
      vNext := vNext + stride2;
      i := i + 1;
    }
  }

  /** encodeJPEG: compute the capacity, submit the row batches until
      `next_scanline` reaches the height, and fill the output record.
      `jpegLen` is the byte count libjpeg reports, which this model does not
      compute; `batches` are the row-pointer arrays of the successive
      `jpeg_write_raw_data` calls. */
  method EncodeJpeg(source: SourceItem, sink: SinkItem, jpegLen: nat)
    returns (output: OutputItem, capacity: nat, batches: seq<RowBatch>)
    ensures capacity == DestCapacity(source.width, source.height)
    ensures |batches| == BatchCount(source.height)
    ensures forall k :: 0 <= k < |batches| ==>
      batches[k] == Batch(PlanesOf(source.bytePerLine, source.height), source.bytePerLine, k)
    ensures output.sourceId == source.sourceId && output.sinkId == sink.sinkId
    ensures output.bytesused == jpegLen
    ensures output.handlerData == source.handlerData && output.src == source.src
      && output.vdev == source.vdev
  {
    capacity := source.width * source.height * 2;
    var bpl := source.bytePerLine;
    var h := source.height;
    var stride2 := bpl / 2;
    var y := 0;
    var u := y + bpl * h;
    var v := u + stride2 * (h / 2);
    var yMax := u - bpl;
    var uMax := v - stride2;
    var vMax := uMax + stride2 * (h / 2);
    var p := Planes(y, u, v, yMax, uMax, vMax);
    assert p == PlanesOf(bpl, h);

    batches := [];
    var nextScanline := 0;
    var yRow, uRow, vRow := y, u, v;
    while nextScanline < h
      invariant nextScanline == LumaRowsPerCall * |batches|
      invariant batches == [] || LumaRowsPerCall * (|batches| - 1) < h
      invariant yRow == y + (LumaRowsPerCall * |batches|) * bpl
      invariant uRow == u + (ChromaRowsPerCall * |batches|) * stride2
      invariant vRow == v + (ChromaRowsPerCall * |batches|) * stride2
      invariant forall k :: 0 <= k < |batches| ==> batches[k] == Batch(p, bpl, k)
      decreases h - nextScanline
    {
      var k := |batches|;
      var yRows, uRows, vRows;
      yRows, yRow := LumaRows(p, bpl, k, yRow);
      uRows, vRows, uRow, vRow := ChromaRows(p, bpl, k, uRow, vRow);
      batches := batches + [RowBatch(yRows, uRows, vRows)];
      // jpeg_write_raw_data consumes one MCU row
      nextScanline := nextScanline + LumaRowsPerCall;
    }
    CeilIsBatchCount(h, |batches|);
    output := OutputItem(source.sourceId, sink.sinkId, jpegLen,
                         source.handlerData, source.src, source.vdev);
  }

  /** The only n with 16(n - 1) < height <= 16n (or n = 0 = height) is
      BatchCount(height). */
  lemma CeilIsBatchCount(height: nat, n: nat)
    requires LumaRowsPerCall * n >= height
    requires n == 0 || LumaRowsPerCall * (n - 1) < height
    ensures n == BatchCount(height)
  {
  }

  /** The loop runs ceil(height / 16) times: its batches cover every row,
      and the last one starts on a real row. */
  lemma BatchesCoverFrame(height: nat)
    ensures LumaRowsPerCall * BatchCount(height) >= height
    ensures BatchCount(height) > 0 ==> LumaRowsPerCall * (BatchCount(height) - 1) < height
    ensures height == 0 <==> BatchCount(height) == 0
  {
  }

  /** The clamp bounds are the starts of each plane's last row, and the
      planes follow one another in the frame. */
  lemma PlaneLayout(bpl: nat, height: nat)
    requires height >= 2
    ensures var p := PlanesOf(bpl, height);
      && p.y == 0
      && p.yMax == bpl * (height - 1)
      && p.u == bpl * height
      && p.uMax == p.u + Stride2(bpl) * (height / 2 - 1)
      && p.v == p.u + Stride2(bpl) * (height / 2)
      && p.vMax == p.v + Stride2(bpl) * (height / 2 - 1)
      && p.yMax <= p.u <= p.uMax <= p.v <= p.vMax
  {
    var s := Stride2(bpl);
    var half := height / 2;
    MulSucc(height - 1, bpl);
    MulSucc(half - 1, s);
  }

  /** Every luma row pointer lies inside the luma plane: between its start
      and the start of its last row. */
  lemma LumaRowInPlane(bpl: nat, height: nat, k: nat, i: nat)
    requires height >= 2
    ensures var p := PlanesOf(bpl, height);
      0 <= LumaRow(p, bpl, k, i) <= bpl * (height - 1)
  {
    PlaneLayout(bpl, height);
  }

  /** Every U and V row pointer lies inside its plane: between the plane's
      start and the start of its last row. */
  lemma ChromaRowsInPlane(bpl: nat, height: nat, k: nat, i: nat)
    requires height >= 2
    ensures var p := PlanesOf(bpl, height);
      && p.u <= ChromaRow(p.u, p.uMax, Stride2(bpl), k, i) <= p.uMax
      && p.v <= ChromaRow(p.v, p.vMax, Stride2(bpl), k, i) <= p.vMax
  {
    PlaneLayout(bpl, height);
  }

  lemma MulMonotone(a: nat, b: nat, c: nat)
    requires a <= b
    ensures a * c <= b * c
  {
  }

  /** Rows inside the frame are passed as they are; rows past the bottom
      are clamped to the last row (the repeated-row artifact of the last
      MCU row when the height is not a multiple of 16). */
  lemma LumaRowClamp(bpl: nat, height: nat, k: nat, i: nat)
    requires height >= 1
    ensures var p := PlanesOf(bpl, height);
      var row := LumaRowsPerCall * k + i;
      && (row < height ==> LumaRow(p, bpl, k, i) == row * bpl)
      && (row >= height - 1 ==> LumaRow(p, bpl, k, i) == bpl * (height - 1))
  {
    var row := LumaRowsPerCall * k + i;
    MulSucc(height - 1, bpl);
    if row < height {
      MulMonotone(row, height - 1, bpl);
    } else {
      MulMonotone(height - 1, row, bpl);
    }
  }
  /** The same for either chroma plane: rows inside its `height / 2` rows
      are passed as they are, rows past its bottom are clamped to its last
      row. */
  lemma ChromaRowClamp(bpl: nat, height: nat, k: nat, i: nat)
    requires height >= 2
    ensures var p := PlanesOf(bpl, height);
      var s := Stride2(bpl);
      var row := ChromaRowsPerCall * k + i;
      && (row < height / 2 ==>
            ChromaRow(p.u, p.uMax, s, k, i) == p.u + row * s
            && ChromaRow(p.v, p.vMax, s, k, i) == p.v + row * s)
      && (row >= height / 2 - 1 ==>
            ChromaRow(p.u, p.uMax, s, k, i) == p.uMax
            && ChromaRow(p.v, p.vMax, s, k, i) == p.vMax)
  {
    var s := Stride2(bpl);
    var row := ChromaRowsPerCall * k + i;
    PlaneLayout(bpl, height);
    if row < height / 2 {
      MulMonotone(row, height / 2 - 1, s);
    } else {
      MulMonotone(height / 2 - 1, row, s);
    }
  }
}
