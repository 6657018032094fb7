/** The accelerator emulator as functions on its state: what one NPU run, one GPU
    command, one queue descriptor and one register write do. */
module EmuSpec {
  import opened Bits
  import opened UnifiedMem
  import Raster

  const UMEM_BYTES: nat := 0x1_0000
  const DESC_BYTES: nat := 32

  const CTRL_ENABLE: nat := 1
  const CTRL_NPU_USE_BUF: nat := 2
  const CTRL_GPU_USE_BUF: nat := 4
  const CTRL_CMDQ_ENABLE: nat := 8

  const MODEL_BUILTIN_1: byte := 0x01
  const MODEL_BUILTIN_2: byte := 0x02
  const MODEL_RUNTIME: byte := 0x80
  const MODEL_RUNTIME_MLP: byte := 0x81

  const GPU_CMD_CLEAR: byte := 1
  const GPU_CMD_DRAW_TRI: byte := 2

  const OP_NOP: word := 0
  const OP_NPU_INFER: word := 1
  const OP_GPU_CLEAR: word := 2
  const OP_GPU_DRAW_TRI: word := 3

  const FLAG_DONE: word := 0x8000_0000
  const FLAG_ERROR: word := 0x4000_0000

  const STATUS_BUSY: word := 1
  const STATUS_ERROR: word := 2
  /** IDLE in the fetch, dispatch and execute status words, EMPTY in the queue's. */
  const STATUS_IDLE: word := 4

  datatype Npu = Npu(
    modelId: byte, seqLength: half, input0: word, input1: word,
    weight0a: word, weight0b: word, weight1a: word, weight1b: word, bias0: word, bias1: word,
    busy: bool, done: bool, statusWord: word,
    logit0: int, logit1: int, hidden0: int, hidden1: int, classId: byte)

  datatype Gpu = Gpu(
    opcode: byte, vertex0: half, vertex1: half, vertex2: half, clearValue: byte,
    busy: bool, done: bool, triangles: word, frames: word, pixels: word, area2: int, bbox: word)

  datatype Umem = Umem(
    ctrl: word, base: word, size: word, npuInput: word, npuWeight: word, npuOutput: word,
    gpuFb: word, gpuPitch: word)

  datatype Cmdq = Cmdq(
    base: word, size: word, head: word, tail: word, doorbell: word, status: word, processed: word,
    lastOffset: word, lastSequence: word, lastSlot: word, fetchStatus: word, lastAraddr: word,
    lastBeats: word, lastWord0: word, dispatchStatus: word, dispatchOpcode: word,
    npuCount: word, gpuCount: word, errorCount: word,
    execCount: word, execModel: byte, execError: bool, execStatus: word, execInput: word, execOutput: word)

  /** The control shadow, interrupt enables and framebuffer row selector. */
  datatype Shell = Shell(control: word, irqEnable: word, rowSelect: byte)

  datatype Emu = Emu(
    shell: Shell, npu: Npu, gpu: Gpu, umem: Umem, cmdq: Cmdq, fb: Raster.Frame, mem: seq<byte>)

  datatype Desc = Desc(
    opcode: word, flags: word, src0: word, src1: word, src2: word, dst0: word, arg0: word, arg1: word)

  /** Power-on state. */
  function InitialNpu(): Npu {
    Npu(MODEL_BUILTIN_1, 8, 0x0403_0201, 0, 0x0101_0101, 0xFFFF_FFFF, 0xFFFF_FFFF, 0x0101_0101, 0, 0,
        false, false, 0, 0, 0, 0, 0, 0)
  }

  function InitialGpu(): Gpu {
    Gpu(GPU_CMD_DRAW_TRI, 0x0202, 0x020A, 0x0A02, 0, false, false, 0, 0, 0, 0, 0)
  }

  function InitialUmem(): Umem {
    Umem(0, 0x1000_0000, UMEM_BYTES, 0, 0x100, 0x200, 0x1000, 4)
  }

  function InitialCmdq(): Cmdq {
    Cmdq(0x2000, 0x100, 0, 0, 0, STATUS_IDLE, 0, 0, 0, 0, STATUS_IDLE, 0, 0, 0, STATUS_IDLE, 0,
         0, 0, 0, 0, 0, false, STATUS_IDLE, 0, 0)
  }

  function Wrap(n: int): word { n % W32 }

  function Limit(u: Umem): nat {
    if u.size < UMEM_BYTES then u.size else UMEM_BYTES
  }

  // ------------------------------------------------------------------ NPU

  function SignedByte(w: word, k: nat): int
    requires k < 4
  {
    var b := ByteOf(w, k);
    if b >= 0x80 then b - 0x100 else b
  }

  function Dot4(a: word, b: word): int {
    SignedByte(a, 0) * SignedByte(b, 0) + SignedByte(a, 1) * SignedByte(b, 1)
    + SignedByte(a, 2) * SignedByte(b, 2) + SignedByte(a, 3) * SignedByte(b, 3)
  }

  function AsInt32(n: int): int {
    var u := n % W32;
    if u >= 0x8000_0000 then u - W32 else u
  }

  datatype Weights = Weights(w0a: word, w0b: word, w1a: word, w1b: word, b0: int, b1: int)

  predicate IsRuntime(model: byte) {
    model == MODEL_RUNTIME || model == MODEL_RUNTIME_MLP
  }

  function SelectWeights(n: Npu): Weights {
    if n.modelId == MODEL_BUILTIN_2 then
      Weights(0xFFFF_FFFF, 0x0101_0101, 0x0101_0101, 0xFFFF_FFFF, 2, -2)
    else if IsRuntime(n.modelId) then
      Weights(n.weight0a, n.weight0b, n.weight1a, n.weight1b, AsInt32(n.bias0), AsInt32(n.bias1))
    else
      Weights(0x0101_0101, 0xFFFF_FFFF, 0xFFFF_FFFF, 0x0101_0101, 0, 0)
  }

  /** The arithmetic of one inference on the operands already in the registers. */
  function Infer(n: Npu): Npu {
    var w := SelectWeights(n);
    var linear0 := AsInt32(Dot4(n.input0, w.w0a) + Dot4(n.input1, w.w0b) + w.b0);
    var linear1 := AsInt32(Dot4(n.input0, w.w1a) + Dot4(n.input1, w.w1b) + w.b1);
    var mlp := n.modelId == MODEL_RUNTIME_MLP;
    var h0 := if mlp && linear0 <= 0 then 0 else linear0;
    var h1 := if mlp && linear1 <= 0 then 0 else linear1;
    var l0, l1 := if mlp then h0 - h1 else h0, if mlp then h1 - h0 else h1;
    var class_ := if l1 > l0 then 1 else 0;
    n.(hidden0 := h0, hidden1 := h1, logit0 := l0, logit1 := l1, classId := class_,
       statusWord := 0x4E * 0x100_0000 + class_ * 0x1_0000 + n.modelId * 0x100 + n.seqLength % 256)
  }

  predicate BufferEnabled(ctrl: word, use: nat) {
    And(ctrl, CTRL_ENABLE + use) == CTRL_ENABLE + use
  }

  /** No memory access of the NPU run leaves the unified memory (the emulator exits there). */
  predicate NpuFits(n: Npu, u: Umem, mem: seq<byte>) {
    && Limit(u) <= |mem|
    && (BufferEnabled(u.ctrl, CTRL_NPU_USE_BUF) ==>
          && u.npuInput + 8 <= Limit(u) && u.npuOutput + 24 <= Limit(u)
          && (IsRuntime(n.modelId) ==> u.npuWeight + 24 <= Limit(u)))
  }

  function LoadOperands(n: Npu, u: Umem, mem: seq<byte>): Npu
    requires NpuFits(n, u, mem)
  {
    if !BufferEnabled(u.ctrl, CTRL_NPU_USE_BUF) then n
    else
      var m := n.(input0 := Read32(mem, u.npuInput), input1 := Read32(mem, u.npuInput + 4));
      if !IsRuntime(n.modelId) then m
      else m.(weight0a := Read32(mem, u.npuWeight), weight0b := Read32(mem, u.npuWeight + 4),
              weight1a := Read32(mem, u.npuWeight + 8), weight1b := Read32(mem, u.npuWeight + 12),
              bias0 := Read32(mem, u.npuWeight + 16), bias1 := Read32(mem, u.npuWeight + 20))
  }

  function OutputWords(n: Npu): seq<word> {
    [n.statusWord, Wrap(n.logit0), Wrap(n.logit1), n.classId, Wrap(n.hidden0), Wrap(n.hidden1)]
  }

  function WriteWords(mem: seq<byte>, off: nat, words: seq<word>): (r: seq<byte>)
    requires off + 4 * |words| <= |mem|
    ensures |r| == |mem|
    decreases |words|
  {
    if words == [] then mem
    else WriteWords(Write32(mem, off, words[0]), off + 4, words[1..])
  }

  function RunNpu(e: Emu): Emu
    requires NpuFits(e.npu, e.umem, e.mem)
  {
    var n := Infer(LoadOperands(e.npu.(busy := true), e.umem, e.mem)).(busy := false, done := true);
    var m := if BufferEnabled(e.umem.ctrl, CTRL_NPU_USE_BUF)
             then WriteWords(e.mem, e.umem.npuOutput, OutputWords(n)) else e.mem;
    e.(npu := n, mem := m)
  }

  // ------------------------------------------------------------------ GPU

  /** Where a row of the framebuffer is copied to, on 32-bit words. */
  function RowOffset(u: Umem, row: nat): word { Wrap(u.gpuFb + row * u.gpuPitch) }

  /** Every row is copied to a place inside the unified memory. */
  predicate FbFits(u: Umem, mem: seq<byte>) {
    && Limit(u) <= |mem|
    && (BufferEnabled(u.ctrl, CTRL_GPU_USE_BUF) ==> forall row: nat | row < 32 :: RowOffset(u, row) + 4 <= Limit(u))
  }

  /** The memory after the first `n` rows have been copied out. */
  function CopyRows(mem: seq<byte>, u: Umem, fb: Raster.Frame, n: nat): (r: seq<byte>)
    requires n <= 32 && forall row: nat | row < 32 :: RowOffset(u, row) + 4 <= |mem|
    ensures |r| == |mem|
  {
    if n == 0 then mem else Write32(CopyRows(mem, u, fb, n - 1), RowOffset(u, n - 1), Wrap(fb[n - 1]))
  }

  function SyncFb(u: Umem, fb: Raster.Frame, mem: seq<byte>): seq<byte>
    requires FbFits(u, mem)
  {
    if BufferEnabled(u.ctrl, CTRL_GPU_USE_BUF) then CopyRows(mem, u, fb, 32) else mem
  }

  function FilledFrame(row: nat): Raster.Frame {
    seq(32, _ => row)
  }

  function RunClear(e: Emu): Emu
    requires FbFits(e.umem, e.mem)
  {
    var fb := FilledFrame(if e.gpu.clearValue % 2 == 1 then 0xFFFF_FFFF else 0);
    e.(gpu := e.gpu.(pixels := 0, area2 := 0, bbox := 0, frames := Wrap(e.gpu.frames + 1),
                     busy := false, done := true),
       fb := fb, mem := SyncFb(e.umem, fb, e.mem))
  }

  function UnpackVertex(v: word): Raster.Point {
    Raster.Point(v % 256, v / 256 % 256)
  }

  function TriangleOf(g: Gpu): Raster.Triangle {
    Raster.Triangle(UnpackVertex(g.vertex0), UnpackVertex(g.vertex1), UnpackVertex(g.vertex2))
  }

  function Bbox(t: Raster.Triangle): word
    requires t.Bytes()
  {
    Raster.Min(t.MaxY(), 31) * 0x100_0000 + Raster.Min(t.MaxX(), 31) * 0x1_0000 + t.MinY() * 0x100 + t.MinX()
  }

  /** A draw paints every grid pixel that passes the inside test, and counts them. */
  function RunDraw(e: Emu): Emu
    requires FbFits(e.umem, e.mem)
  {
    var t := TriangleOf(e.gpu);
    var fb := Raster.PaintGrid(e.fb, t);
    e.(gpu := e.gpu.(area2 := t.Area2(), bbox := Bbox(t), pixels := Wrap(|t.Cover()|),
                     triangles := Wrap(e.gpu.triangles + 1), frames := Wrap(e.gpu.frames + 1),
                     busy := false, done := true),
       fb := fb, mem := SyncFb(e.umem, fb, e.mem))
  }

  // ------------------------------------------------------------------ descriptors

  function ReadDesc(mem: seq<byte>, off: nat): Desc
    requires off + 32 <= |mem|
  {
    Desc(Read32(mem, off), Read32(mem, off + 4), Read32(mem, off + 8), Read32(mem, off + 12),
         Read32(mem, off + 16), Read32(mem, off + 20), Read32(mem, off + 24), Read32(mem, off + 28))
  }

  /** The registers a descriptor overrides while it runs. */
  function Override(e: Emu, d: Desc): Emu {
    if d.opcode == OP_NPU_INFER then
      e.(umem := e.umem.(ctrl := OrWord(e.umem.ctrl, CTRL_ENABLE + CTRL_NPU_USE_BUF),
                         npuInput := d.src0, npuWeight := d.src1, npuOutput := d.dst0),
         npu := e.npu.(modelId := if d.flags % 256 != 0 then d.flags % 256 else e.npu.modelId,
                       seqLength := if d.arg0 != 0 then d.arg0 % 0x1_0000 else 8))
    else if d.opcode == OP_GPU_CLEAR then
      e.(umem := GpuTarget(e.umem, d),
         gpu := e.gpu.(opcode := GPU_CMD_CLEAR, clearValue := d.arg0 % 256))
    else if d.opcode == OP_GPU_DRAW_TRI then
      e.(umem := GpuTarget(e.umem, d),
         gpu := e.gpu.(opcode := GPU_CMD_DRAW_TRI, vertex0 := d.src0 % 0x1_0000,
                       vertex1 := d.src1 % 0x1_0000, vertex2 := d.src2 % 0x1_0000))
    else e
  }

  function OrWord(a: word, b: word): word {
    Pow2Values();
    OrBound(a, b, 32);
    Or(a, b)
  }

  function GpuTarget(u: Umem, d: Desc): Umem {
    u.(ctrl := OrWord(u.ctrl, CTRL_ENABLE + CTRL_GPU_USE_BUF),
       gpuFb := if d.dst0 != 0 then d.dst0 else u.gpuFb)
  }

  /** The memory accesses of descriptor `d` all lie inside the unified memory. */
  predicate DescFits(e: Emu, d: Desc) {
    var o := Override(e, d);
    if d.opcode == OP_NPU_INFER then NpuFits(o.npu, o.umem, o.mem)
    else if d.opcode == OP_GPU_CLEAR || d.opcode == OP_GPU_DRAW_TRI then FbFits(o.umem, o.mem)
    else true
  }

  function ExecStatus(q: Cmdq, busy: bool): word {
    (q.execCount % 0x1_0000) * 0x1_0000 + q.execModel * 0x100
    + (if busy then STATUS_BUSY else STATUS_IDLE) + if q.execError then STATUS_ERROR else 0
  }

  /** Queue bookkeeping of a descriptor, before its memory effect. */
  function Account(q: Cmdq, d: Desc, model: byte): Cmdq {
    var r := q.(dispatchOpcode := d.opcode, dispatchStatus := STATUS_IDLE);
    if d.opcode == OP_NOP then r
    else if d.opcode == OP_NPU_INFER then
      var x := r.(execInput := d.src0, execOutput := d.dst0, execModel := model,
                  execCount := (q.execCount + 1) % 0x1_0000, npuCount := Wrap(q.npuCount + 1));
      x.(execStatus := ExecStatus(x, false))
    else if d.opcode == OP_GPU_CLEAR || d.opcode == OP_GPU_DRAW_TRI then
      r.(gpuCount := Wrap(q.gpuCount + 1))
    else
      r.(dispatchStatus := STATUS_ERROR, errorCount := Wrap(q.errorCount + 1))
  }

  predicate Known(d: Desc) {
    d.opcode == OP_NOP || d.opcode == OP_NPU_INFER || d.opcode == OP_GPU_CLEAR || d.opcode == OP_GPU_DRAW_TRI
  }

  function DoneFlags(d: Desc): word {
    d.flags % 256 + FLAG_DONE + if Known(d) then 0 else FLAG_ERROR
  }

  function RunEngine(o: Emu, d: Desc): Emu
    requires d.opcode == OP_NPU_INFER ==> NpuFits(o.npu, o.umem, o.mem)
    requires d.opcode == OP_GPU_CLEAR || d.opcode == OP_GPU_DRAW_TRI ==> FbFits(o.umem, o.mem)
  {
    if d.opcode == OP_NPU_INFER then RunNpu(o)
    else if d.opcode == OP_GPU_CLEAR then RunClear(o)
    else if d.opcode == OP_GPU_DRAW_TRI then RunDraw(o)
    else o
  }

  /** Undo the twelve overrides, keeping everything the run computed. */
  function Restore(r: Emu, e: Emu): Emu {
    r.(umem := r.umem.(ctrl := e.umem.ctrl, npuInput := e.umem.npuInput, npuWeight := e.umem.npuWeight,
                       npuOutput := e.umem.npuOutput, gpuFb := e.umem.gpuFb),
       npu := r.npu.(modelId := e.npu.modelId, seqLength := e.npu.seqLength),
       gpu := r.gpu.(opcode := e.gpu.opcode, vertex0 := e.gpu.vertex0, vertex1 := e.gpu.vertex1,
                     vertex2 := e.gpu.vertex2, clearValue := e.gpu.clearValue))
  }

  function Execute(e: Emu, off: nat): Emu
    requires off + 32 <= |e.mem| && DescFits(e, ReadDesc(e.mem, off))
  {
    var d := ReadDesc(e.mem, off);
    var o := Override(e, d);
    var r := RunEngine(o, d);
    Restore(r, e).(cmdq := Account(e.cmdq, d, o.npu.modelId), mem := Write32(r.mem, off + 4, DoneFlags(d)))
  }

  // ------------------------------------------------------------------ draining the queue

  function EntryCount(sizeBytes: word): (n: nat)
    ensures 1 <= n
    ensures n > 1 ==> 32 * n <= sizeBytes
  {
    var bytes := if sizeBytes < DESC_BYTES then DESC_BYTES else sizeBytes;
    (bytes - bytes % DESC_BYTES) / DESC_BYTES
  }

  /** The most descriptors that fit the configured size; one if none does. */
  lemma EntryCountLargest(sizeBytes: word)
    ensures var n := EntryCount(sizeBytes);
      if sizeBytes < 32 then n == 1 else 32 * n <= sizeBytes < 32 * (n + 1)
  {
  }

  function SlotOffset(q: Cmdq, slot: nat): word {
    Wrap(q.base + slot % EntryCount(q.size) * DESC_BYTES)
  }

  /** The descriptor at the tail, and everything it touches, is inside the unified memory. */
  predicate RetireFits(e: Emu) {
    && Limit(e.umem) <= |e.mem|
    && SlotOffset(e.cmdq, e.cmdq.tail) + 32 <= Limit(e.umem)
    && DescFits(e, ReadDesc(e.mem, SlotOffset(e.cmdq, e.cmdq.tail)))
  }

  function TailDesc(e: Emu): Desc
    requires RetireFits(e)
  {
    ReadDesc(e.mem, SlotOffset(e.cmdq, e.cmdq.tail))
  }

  /** Fetch bookkeeping before the descriptor runs; the slot register has 16 bits. */
  function Fetched(q: Cmdq, base: word, opcode: word): Cmdq {
    var slot := q.tail % EntryCount(q.size) % 0x1_0000;
    var off := Wrap(q.base + slot * DESC_BYTES);
    q.(lastSlot := slot, lastOffset := off, lastSequence := q.processed,
       lastAraddr := Wrap(base + off), lastWord0 := opcode, lastBeats := 8)
  }

  function Retired(q: Cmdq, ok: bool): Cmdq {
    q.(fetchStatus := if ok then STATUS_IDLE else STATUS_ERROR,
       tail := Wrap(q.tail + 1) % EntryCount(q.size), processed := Wrap(q.processed + 1))
  }

  /** One pass of the drain loop: execute the descriptor at the tail and move on. */
  function Retire(e: Emu): Emu
    requires RetireFits(e)
  {
    var d := TailDesc(e);
    var f := e.(cmdq := Fetched(e.cmdq, e.umem.base, d.opcode));
    var x := Execute(f, SlotOffset(e.cmdq, e.cmdq.tail));
    x.(cmdq := Retired(x.cmdq, Known(d)))
  }

  predicate DrainFits(e: Emu, safety: nat)
    decreases safety
  {
    e.cmdq.tail == e.cmdq.head || safety == 0 || (RetireFits(e) && DrainFits(Retire(e), safety - 1))
  }

  function Drain(e: Emu, safety: nat): Emu
    requires DrainFits(e, safety)
    decreases safety
  {
    hide RetireFits, Retire;
    if e.cmdq.tail == e.cmdq.head || safety == 0 then e else Drain(Retire(e), safety - 1)
  }

  /** The descriptors a drain executes, in order. */
  function Executed(e: Emu, safety: nat): (r: seq<Desc>)
    requires DrainFits(e, safety)
    ensures |r| <= safety
    decreases safety
  {
    hide RetireFits, Retire;
    if e.cmdq.tail == e.cmdq.head || safety == 0 then [] else [TailDesc(e)] + Executed(Retire(e), safety - 1)
  }

  predicate AllKnown(ds: seq<Desc>) {
    forall d | d in ds :: Known(d)
  }

  function QueueStatus(q: Cmdq, error: bool): word {
    q.processed % 0x1_0000 * 0x1_0000 + (if error then STATUS_ERROR else 0)
    + if q.head == q.tail then STATUS_IDLE else 0
  }

  function Started(e: Emu): Emu {
    e.(cmdq := e.cmdq.(status := e.cmdq.processed % 0x1_0000 * 0x1_0000 + STATUS_BUSY,
                       fetchStatus := if e.cmdq.head == e.cmdq.tail then STATUS_IDLE else STATUS_BUSY,
                       lastBeats := 0))
  }

  /** The doorbell handler: drain at most one ring's worth of descriptors. */
  function Process(e: Emu): Emu
    requires DrainFits(Started(e), EntryCount(e.cmdq.size))
  {
    var n := EntryCount(e.cmdq.size);
    var r := Drain(Started(e), n);
    var stuck := r.cmdq.tail != r.cmdq.head;
    var q := if stuck then r.cmdq.(fetchStatus := STATUS_ERROR) else r.cmdq;
    r.(cmdq := q.(status := QueueStatus(q, stuck || !AllKnown(Executed(Started(e), n)))))
  }

  // ------------------------------------------------------------------ registers

  datatype Reg =
    | Control | Status | NpuCfg0 | NpuInput0 | NpuInput1
    | NpuWeight0a | NpuWeight0b | NpuWeight1a | NpuWeight1b | NpuBias0 | NpuBias1
    | GpuCmd | GpuVertex0 | GpuVertex1 | GpuVertex2 | GpuClearValue | GpuFbRowSel | IrqEnable
    | UmemCtrl | UmemBase | UmemSize | UmemNpuInput | UmemNpuWeight | UmemNpuOutput | UmemGpuFb | UmemGpuFbPitch
    | CmdqBase | CmdqSize | CmdqHead | CmdqTail | CmdqDoorbell

  function AfterNpuStart(e: Emu, v: word): Emu
    requires v % 2 == 1 ==> NpuFits(e.npu, e.umem, e.mem)
  {
    var c := e.(shell := e.shell.(control := v));
    if v % 2 == 1 then RunNpu(c) else c
  }

  predicate Rings(e: Emu, v: word) {
    And(e.umem.ctrl, CTRL_CMDQ_ENABLE) != 0 && v != 0
  }

  /** No unified-memory access of the register write leaves the memory. */
  predicate WriteFits(e: Emu, r: Reg, v: word) {
    match r
    case Control =>
      && (v % 2 == 1 ==> NpuFits(e.npu, e.umem, e.mem))
      && (v / 2 % 2 == 1 ==> FbFits(e.umem, AfterNpuStart(e, v).mem))
    case CmdqDoorbell =>
      var b := e.(cmdq := e.cmdq.(doorbell := v));
      Rings(e, v) ==> DrainFits(Started(b), EntryCount(e.cmdq.size))
    case _ => true
  }

  function WithQueue(e: Emu, q: Cmdq): Emu {
    e.(cmdq := q.(status := QueueStatus(q, false)))
  }

  function RegWrite(e: Emu, r: Reg, v: word): Emu
    requires WriteFits(e, r, v)
  {
    match r
    case Control =>
      var n := AfterNpuStart(e, v);
      if v / 2 % 2 == 0 then n
      else if n.gpu.opcode == GPU_CMD_CLEAR then RunClear(n)
      else RunDraw(n)
    case Status =>
      e.(npu := e.npu.(done := e.npu.done && v % 2 == 0), gpu := e.gpu.(done := e.gpu.done && v / 2 % 2 == 0))
    case NpuCfg0 => e.(npu := e.npu.(modelId := v % 256, seqLength := v / 0x1_0000))
    case NpuInput0 => e.(npu := e.npu.(input0 := v))
    case NpuInput1 => e.(npu := e.npu.(input1 := v))
    case NpuWeight0a => e.(npu := e.npu.(weight0a := v))
    case NpuWeight0b => e.(npu := e.npu.(weight0b := v))
    case NpuWeight1a => e.(npu := e.npu.(weight1a := v))
    case NpuWeight1b => e.(npu := e.npu.(weight1b := v))
    case NpuBias0 => e.(npu := e.npu.(bias0 := v))
    case NpuBias1 => e.(npu := e.npu.(bias1 := v))
    case GpuCmd => e.(gpu := e.gpu.(opcode := v % 256))
    case GpuVertex0 => e.(gpu := e.gpu.(vertex0 := v % 0x1_0000))
    case GpuVertex1 => e.(gpu := e.gpu.(vertex1 := v % 0x1_0000))
    case GpuVertex2 => e.(gpu := e.gpu.(vertex2 := v % 0x1_0000))
    case GpuClearValue => e.(gpu := e.gpu.(clearValue := v % 256))
    case GpuFbRowSel => e.(shell := e.shell.(rowSelect := v % 32))
    case IrqEnable => e.(shell := e.shell.(irqEnable := v % 4))
    case UmemCtrl => e.(umem := e.umem.(ctrl := v))
    case UmemBase => e.(umem := e.umem.(base := v))
    case UmemSize => e.(umem := e.umem.(size := v))
    case UmemNpuInput => e.(umem := e.umem.(npuInput := v))
    case UmemNpuWeight => e.(umem := e.umem.(npuWeight := v))
    case UmemNpuOutput => e.(umem := e.umem.(npuOutput := v))
    case UmemGpuFb => e.(umem := e.umem.(gpuFb := v))
    case UmemGpuFbPitch => e.(umem := e.umem.(gpuPitch := v))
    case CmdqBase => WithQueue(e, e.cmdq.(base := v))
    case CmdqSize => WithQueue(e, e.cmdq.(size := v))
    case CmdqHead => WithQueue(e, e.cmdq.(head := v))
    case CmdqTail => WithQueue(e, e.cmdq.(tail := v))
    case CmdqDoorbell =>
      var b := e.(cmdq := e.cmdq.(doorbell := v));
      if Rings(e, v) then Process(b) else WithQueue(b, b.cmdq)
  }

  /** What reading a register back gives. */
  function ReadReg(e: Emu, r: Reg): word {
    match r
    case Control => e.shell.control
    case Status =>
      (if e.npu.busy then 1 else 0) + (if e.npu.done then 2 else 0)
      + (if e.gpu.busy then 4 else 0) + if e.gpu.done then 8 else 0
    case NpuCfg0 => e.npu.seqLength * 0x1_0000 + e.npu.modelId
    case NpuInput0 => e.npu.input0
    case NpuInput1 => e.npu.input1
    case NpuWeight0a => e.npu.weight0a
    case NpuWeight0b => e.npu.weight0b
    case NpuWeight1a => e.npu.weight1a
    case NpuWeight1b => e.npu.weight1b
    case NpuBias0 => e.npu.bias0
    case NpuBias1 => e.npu.bias1
    case GpuCmd => e.gpu.opcode
    case GpuVertex0 => e.gpu.vertex0
    case GpuVertex1 => e.gpu.vertex1
    case GpuVertex2 => e.gpu.vertex2
    case GpuClearValue => e.gpu.clearValue
    case GpuFbRowSel => e.shell.rowSelect
    case IrqEnable => e.shell.irqEnable % 4
    case UmemCtrl => e.umem.ctrl
    case UmemBase => e.umem.base
    case UmemSize => e.umem.size
    case UmemNpuInput => e.umem.npuInput
    case UmemNpuWeight => e.umem.npuWeight
    case UmemNpuOutput => e.umem.npuOutput
    case UmemGpuFb => e.umem.gpuFb
    case UmemGpuFbPitch => e.umem.gpuPitch
    case CmdqBase => e.cmdq.base
    case CmdqSize => e.cmdq.size
    case CmdqHead => e.cmdq.head
    case CmdqTail => e.cmdq.tail
    case CmdqDoorbell => e.cmdq.doorbell
  }
}
