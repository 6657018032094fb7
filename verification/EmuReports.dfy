/** What software reads of the emulator, in registers and in unified memory, said without the
    functions that compute it. */
module EmuReports {
  import opened Bits
  import opened UnifiedMem
  import opened EmuSpec
  import opened EmuQueue
  import opened Raster

  // ------------------------------------------------------------------ the control word

  lemma GpuBufferBits(ctrl: word)
    ensures BufferEnabled(ctrl, CTRL_GPU_USE_BUF) <==> Bit(ctrl, 0) && Bit(ctrl, 2)
  {
    assert And(ctrl, 5) == 2 * And(ctrl / 2, 2) + ctrl % 2;
    assert And(ctrl / 2, 2) == 2 * And(ctrl / 4, 1) by { assert ctrl / 2 / 2 == ctrl / 4; }
    assert And(ctrl / 4, 1) == ctrl / 4 % 2;
    assert Bit(ctrl, 2) == Bit(ctrl / 2, 1) == Bit(ctrl / 2 / 2, 0);
  }

  /** The doorbell drains the queue exactly when bit 3 is set and the value is not zero. */
  lemma DoorbellRings(e: Emu, v: word)
    ensures Rings(e, v) <==> Bit(e.umem.ctrl, 3) && v != 0
  {
    var c: nat := e.umem.ctrl;
    assert And(c, 8) == 2 * And(c / 2, 4) && And(c / 2, 4) == 2 * And(c / 2 / 2, 2);
    assert And(c / 2 / 2, 2) == 2 * And(c / 2 / 2 / 2, 1) && And(c / 2 / 2 / 2, 1) == c / 2 / 2 / 2 % 2;
    assert Bit(c, 3) == Bit(c / 2, 2) == Bit(c / 2 / 2, 1) == Bit(c / 2 / 2 / 2, 0);
  }

  /** A descriptor switches its buffer on and leaves the other control bits alone. */
  lemma OverrideSwitches(e: Emu, d: Desc, k: nat)
    ensures var on := Bit(Override(e, d).umem.ctrl, k);
      && (d.opcode == 1 ==> (on <==> Bit(e.umem.ctrl, k) || k == 0 || k == 1))
      && (d.opcode == 2 || d.opcode == 3 ==> (on <==> Bit(e.umem.ctrl, k) || k == 0 || k == 2))
  {
    OrBit(e.umem.ctrl, 3, k);
    OrBit(e.umem.ctrl, 5, k);
    SmallBits(k);
  }

  lemma SmallBits(k: nat)
    ensures Bit(3, k) == (k == 0 || k == 1) && Bit(5, k) == (k == 0 || k == 2)
  {
    if k > 2 {
      ZeroBit(k - 2);
      ZeroBit(k - 3);
      assert Bit(3, k) == Bit(1, k - 1) == Bit(0, k - 2);
      assert Bit(5, k) == Bit(2, k - 1) == Bit(1, k - 2) == Bit(0, k - 3);
    } else if k == 2 {
      assert Bit(3, 2) == Bit(1, 1) == Bit(0, 0);
      assert Bit(5, 2) == Bit(2, 1) == Bit(1, 0);
    } else if k == 1 {
      assert Bit(3, 1) == Bit(1, 0) && Bit(5, 1) == Bit(2, 0);
    }
  }

  /** The usable memory ends at the configured size or at 64 KiB, whichever comes first. */
  lemma LimitIs(u: Umem)
    ensures Limit(u) <= u.size && Limit(u) <= 0x1_0000 && (Limit(u) == u.size || Limit(u) == 0x1_0000)
  {
  }

  // ------------------------------------------------------------------ the framebuffer in memory

  /** Where row `row` of a framebuffer at `fb` goes, on 32-bit words. */
  function RowAt(fb: word, pitch: word, row: nat): nat { (fb + row * pitch) % W32 }

  predicate Apart(a: nat, b: nat) { a + 4 <= b || b + 4 <= a }

  /** No later row overwrites this one. */
  predicate Stays(fb: word, pitch: word, row: nat, n: nat) {
    forall later: nat | row < later < n :: Apart(RowAt(fb, pitch, row), RowAt(fb, pitch, later))
  }

  lemma {:induction false} RowsCopied(mem: seq<byte>, u: Umem, fb: Frame, n: nat, row: nat)
    requires row < n <= 32 && forall k: nat | k < 32 :: RowOffset(u, k) + 4 <= |mem|
    requires Stays(u.gpuFb, u.gpuPitch, row, n)
    ensures RowAt(u.gpuFb, u.gpuPitch, row) + 4 <= |mem|
    ensures Read32(CopyRows(mem, u, fb, n), RowAt(u.gpuFb, u.gpuPitch, row)) == fb[row] % W32
    decreases n
  {
    hide Read32, Write32, RowAt;
    var m, at := CopyRows(mem, u, fb, n - 1), RowAt(u.gpuFb, u.gpuPitch, row);
    assert at == RowOffset(u, row) by { RowIs(u, row); }
    assert RowAt(u.gpuFb, u.gpuPitch, n - 1) == RowOffset(u, n - 1) by { RowIs(u, n - 1); }
    ReadWrite(m, RowOffset(u, n - 1), Wrap(fb[n - 1]), at);
    if row == n - 1 {
    } else {
      assert Apart(at, RowAt(u.gpuFb, u.gpuPitch, n - 1));
      RowsCopied(mem, u, fb, n - 1, row);
    }
  }

  lemma RowIs(u: Umem, row: nat)
    ensures RowAt(u.gpuFb, u.gpuPitch, row) == RowOffset(u, row)
  {
  }

  /** With the buffer on, every row no later row overlaps stands in memory; off, memory is
      untouched. */
  lemma RowsStored(u: Umem, fb: Frame, mem: seq<byte>)
    requires FbFits(u, mem)
    ensures var m := SyncFb(u, fb, mem);
      if Bit(u.ctrl, 0) && Bit(u.ctrl, 2) then
        forall row: nat | row < 32 && Stays(u.gpuFb, u.gpuPitch, row, 32) ::
          && RowAt(u.gpuFb, u.gpuPitch, row) + 4 <= |m|
          && Read32(m, RowAt(u.gpuFb, u.gpuPitch, row)) == fb[row] % W32
      else m == mem
  {
    hide Read32, CopyRows, BufferEnabled, Stays, RowAt;
    GpuBufferBits(u.ctrl);
    if BufferEnabled(u.ctrl, CTRL_GPU_USE_BUF) {
      forall row: nat | row < 32 && Stays(u.gpuFb, u.gpuPitch, row, 32)
        ensures RowAt(u.gpuFb, u.gpuPitch, row) + 4 <= |mem|
        ensures Read32(SyncFb(u, fb, mem), RowAt(u.gpuFb, u.gpuPitch, row)) == fb[row] % W32
      {
        RowsCopied(mem, u, fb, 32, row);
      }
    }
  }

  /** Where descriptor `d` wants its framebuffer. */
  function WantedFb(e: Emu, d: Desc): word { if d.dst0 == 0 then e.umem.gpuFb else d.dst0 }

  lemma WantedTarget(e: Emu, d: Desc)
    requires d.opcode == 2 || d.opcode == 3
    ensures var u := Override(e, d).umem;
      && u.gpuFb == WantedFb(e, d) && u.gpuPitch == e.umem.gpuPitch && Bit(u.ctrl, 0) && Bit(u.ctrl, 2)
      && Override(e, d).mem == e.mem
  {
    OverrideSwitches(e, d, 0);
    OverrideSwitches(e, d, 2);
    hide OrWord;
  }

  /** A GPU descriptor leaves its framebuffer in memory at dst0, or at the register's place if
      that is zero: every row that overlaps neither a later row nor the flags word. */
  lemma DescriptorFramebuffer(e: Emu, off: nat, row: nat)
    requires off + 32 <= |e.mem| && DescFits(e, ReadDesc(e.mem, off)) && row < 32
    requires ReadDesc(e.mem, off).opcode == 2 || ReadDesc(e.mem, off).opcode == 3
    requires var fb := WantedFb(e, ReadDesc(e.mem, off));
      Stays(fb, e.umem.gpuPitch, row, 32) && Apart(RowAt(fb, e.umem.gpuPitch, row), off + 4)
    ensures var x, at := Execute(e, off), RowAt(WantedFb(e, ReadDesc(e.mem, off)), e.umem.gpuPitch, row);
      at + 4 <= |x.mem| && Read32(x.mem, at) == x.fb[row] % W32
  {
    hide ReadDesc, Override, RunClear, RunDraw, RunNpu, SyncFb, FbFits, NpuFits, Account, Read32, Write32;
    hide Stays, RowAt, Apart, WantedFb;
    var d := ReadDesc(e.mem, off);
    var o := Override(e, d);
    WantedTarget(e, d);
    var r := RunEngine(o, d);
    EngineSyncs(o, d);
    RowsStored(o.umem, r.fb, o.mem);
    assert r.mem == SyncFb(o.umem, r.fb, o.mem);
    var at := RowAt(WantedFb(e, d), e.umem.gpuPitch, row);
    ApartRead(r.mem, off + 4, DoneFlags(d), at);
  }

  lemma EngineSyncs(o: Emu, d: Desc)
    requires (d.opcode == 2 || d.opcode == 3) && FbFits(o.umem, o.mem)
    ensures var r := RunEngine(o, d);
      r.mem == SyncFb(o.umem, r.fb, o.mem) && |r.mem| == |o.mem|
  {
    hide PaintGrid, Triangle.Area2, Triangle.Cover, Bbox;
  }

  lemma ApartRead(m: seq<byte>, off: nat, v: word, at: nat)
    requires off + 4 <= |m| && at + 4 <= |m| && Apart(at, off)
    ensures Read32(Write32(m, off, v), at) == Read32(m, at)
  {
    ReadWrite(m, off, v, at);
  }

  // ------------------------------------------------------------------ what a command reports

  /** A clear fills every row by the low bit of its value and reports an empty draw. */
  lemma ClearReports(e: Emu)
    requires FbFits(e.umem, e.mem)
    ensures var r := RunClear(e);
      && (forall y: nat, x: nat | y < 32 && x < 32 :: Bit(r.fb[y], x) == Bit(e.gpu.clearValue, 0))
      && r.gpu == e.gpu.(pixels := 0, area2 := 0, bbox := 0, frames := (e.gpu.frames + 1) % W32,
                         busy := false, done := true)
  {
    hide SyncFb;
    forall y: nat, x: nat | y < 32 && x < 32 ensures Bit(RunClear(e).fb[y], x) == Bit(e.gpu.clearValue, 0) {
      if Bit(e.gpu.clearValue, 0) { OnesBit(32, x); } else { ZeroBit(x); }
    }
  }

  lemma {:induction false} OnesBit(n: nat, x: nat)
    requires x < n
    ensures Bit(Pow2(n) - 1, x)
    ensures n == 32 ==> Bit(0xFFFF_FFFF, x)
    decreases n
  {
    assert (Pow2(n) - 1) / 2 == Pow2(n - 1) - 1;
    if x == 0 {
    } else {
      OnesBit(n - 1, x - 1);
    }
    Pow2Values();
  }

  /** `least` is the smallest of three numbers. */
  predicate Least(least: int, a: int, b: int, c: int) {
    least <= a && least <= b && least <= c && (least == a || least == b || least == c)
  }

  /** `high` is the largest of three numbers, but at most 31. */
  predicate CappedGreatest(high: int, a: int, b: int, c: int) {
    || (high == 31 && (a >= 31 || b >= 31 || c >= 31))
    || (high < 31 && high >= a && high >= b && high >= c && (high == a || high == b || high == c))
  }

  lemma BoxReports(t: Triangle)
    requires t.Bytes()
    ensures var b := Bbox(t);
      && Least(ByteOf(b, 0), t.v0.x, t.v1.x, t.v2.x) && Least(ByteOf(b, 1), t.v0.y, t.v1.y, t.v2.y)
      && CappedGreatest(ByteOf(b, 2), t.v0.x, t.v1.x, t.v2.x)
      && CappedGreatest(ByteOf(b, 3), t.v0.y, t.v1.y, t.v2.y)
  {
    hide ByteOf;
    JoinBytes(t.MinX(), t.MinY(), Min(t.MaxX(), 31), Min(t.MaxY(), 31));
  }

  lemma AreaReports(t: Triangle)
    ensures t.Area2() == (t.v1.x - t.v0.x) * (t.v2.y - t.v0.y) - (t.v1.y - t.v0.y) * (t.v2.x - t.v0.x)
  {
  }

  /** A draw paints the covered pixels, counts them, and reports twice the signed area and the
      bounding box, one coordinate a byte: least x, least y, greatest x, greatest y. */
  lemma DrawReports(e: Emu)
    requires FbFits(e.umem, e.mem)
    ensures var r, t := RunDraw(e), TriangleOf(e.gpu);
      && Painted(e.fb, r.fb, t.Cover()) && r.gpu.pixels == |t.Cover()| % W32
      && r.gpu.area2 == (t.v1.x - t.v0.x) * (t.v2.y - t.v0.y) - (t.v1.y - t.v0.y) * (t.v2.x - t.v0.x)
      && Least(ByteOf(r.gpu.bbox, 0), t.v0.x, t.v1.x, t.v2.x) && Least(ByteOf(r.gpu.bbox, 1), t.v0.y, t.v1.y, t.v2.y)
      && CappedGreatest(ByteOf(r.gpu.bbox, 2), t.v0.x, t.v1.x, t.v2.x)
      && CappedGreatest(ByteOf(r.gpu.bbox, 3), t.v0.y, t.v1.y, t.v2.y)
    ensures var r := RunDraw(e).gpu;
      r == e.gpu.(pixels := r.pixels, area2 := r.area2, bbox := r.bbox, triangles := (e.gpu.triangles + 1) % W32,
                  frames := (e.gpu.frames + 1) % W32, busy := false, done := true)
  {
    hide SyncFb, PaintGrid, Triangle.Cover, Triangle.Area2, Bbox, Painted, ByteOf, Least, CappedGreatest;
    var t := TriangleOf(e.gpu);
    PaintGridPaints(e.fb, t);
    BoxReports(t);
    AreaReports(t);
  }

  /** A vertex register holds x in its low byte and y in its high one. */
  lemma VertexBytes(v: half)
    ensures UnpackVertex(v).x == ByteOf(v, 0) && UnpackVertex(v).y == ByteOf(v, 1)
  {
  }

  // ------------------------------------------------------------------ status words

  /** The queue status: processed modulo 2^16 in the upper half, ERROR in bit 1, EMPTY in bit 2. */
  lemma QueueStatusBits(q: Cmdq, error: bool)
    ensures var s := QueueStatus(q, error);
      && s / 0x1_0000 == q.processed % 0x1_0000 && s % 0x1_0000 < 8
      && !Bit(s, 0) && Bit(s, 1) == error && Bit(s, 2) == (q.head == q.tail)
  {
    LowFlags(q.processed % 0x1_0000, 0, if error then 1 else 0, if q.head == q.tail then 1 else 0);
  }

  /** Three flags under a 16-bit count. */
  lemma LowFlags(high: nat, b0: nat, b1: nat, b2: nat)
    requires b0 < 2 && b1 < 2 && b2 < 2
    ensures var s := high * 0x1_0000 + b0 + 2 * b1 + 4 * b2;
      && s / 0x1_0000 == high && s % 0x1_0000 < 8
      && Bit(s, 0) == (b0 == 1) && Bit(s, 1) == (b1 == 1) && Bit(s, 2) == (b2 == 1)
  {
    var s := high * 0x1_0000 + b0 + 2 * b1 + 4 * b2;
    DivModUnique(s, 0x1_0000, high, b0 + 2 * b1 + 4 * b2);
    DivModUnique(s, 2, high * 0x8000 + b1 + 2 * b2, b0);
    DivModUnique(high * 0x8000 + b1 + 2 * b2, 2, high * 0x4000 + b2, b1);
    DivModUnique(high * 0x4000 + b2, 2, high * 0x2000, b2);
    assert Bit(s, 1) == Bit(s / 2, 0) && Bit(s, 2) == Bit(s / 2, 1) == Bit(s / 2 / 2, 0);
  }

  /** The flags word of an executed descriptor: the low byte kept, DONE in bit 31, ERROR in bit
      30 exactly for an unknown opcode, and zeros between. */
  lemma DoneFlagsBits(d: Desc)
    ensures var f := DoneFlags(d);
      && f % 0x4000_0000 == d.flags % 256 && f / 0x8000_0000 == 1
      && (f / 0x4000_0000 % 2 == 1 <==> d.opcode > 3)
  {
  }

  /** The execute status: count modulo 2^16, model, and IDLE or BUSY, with ERROR. */
  lemma ExecStatusParts(q: Cmdq)
    ensures var s := ExecStatus(q, false);
      && s / 0x1_0000 == q.execCount % 0x1_0000 && ByteOf(s, 1) == q.execModel
      && ByteOf(s, 0) == 4 + if q.execError then 2 else 0
  {
    var low: nat := q.execModel * 0x100 + 4 + if q.execError then 2 else 0;
    DivModUnique(q.execCount % 0x1_0000 * 0x1_0000 + low, 0x1_0000, q.execCount % 0x1_0000, low);
    DivModUnique(q.execCount % 0x1_0000 * 0x1_0000 + low, 0x100,
                 q.execCount % 0x1_0000 * 0x100 + q.execModel, low - q.execModel * 0x100);
    DivModUnique(q.execCount % 0x1_0000 * 0x100 + q.execModel, 0x100, q.execCount % 0x1_0000, q.execModel);
  }

  // ------------------------------------------------------------------ what a descriptor reports

  /** The dispatch and execute registers after a descriptor. */
  lemma DispatchReports(e: Emu, off: nat)
    requires off + 32 <= |e.mem| && DescFits(e, ReadDesc(e.mem, off))
    ensures var d, q, r := ReadDesc(e.mem, off), e.cmdq, Execute(e, off).cmdq;
      && r.dispatchOpcode == d.opcode && r.dispatchStatus == (if d.opcode > 3 then 2 else 4)
      && (if d.opcode == 1 then
            && r.execInput == d.src0 && r.execOutput == d.dst0 && r.execCount == (q.execCount + 1) % 0x1_0000
            && r.execModel == (if d.flags % 256 != 0 then d.flags % 256 else e.npu.modelId)
            && r.execStatus / 0x1_0000 == r.execCount && ByteOf(r.execStatus, 1) == r.execModel
            && ByteOf(r.execStatus, 0) == 4 + if q.execError then 2 else 0
          else
            && r.execInput == q.execInput && r.execOutput == q.execOutput && r.execCount == q.execCount
            && r.execModel == q.execModel && r.execStatus == q.execStatus)
      && r.execError == q.execError
  {
    hide ReadDesc, RunEngine, NpuFits, FbFits, OrWord, ExecStatus, ByteOf;
    var d := ReadDesc(e.mem, off);
    ExecStatusParts(Execute(e, off).cmdq);
    ExecStatusSame(Account(e.cmdq, d, Override(e, d).npu.modelId));
  }

  lemma ExecStatusSame(q: Cmdq)
    ensures forall v: word :: ExecStatus(q.(execStatus := v), false) == ExecStatus(q, false)
  {
  }

  /** The fetch registers after one pass of the drain loop: the slot, its offset from the ring
      base and its bus address, the sequence number, the opcode, eight beats, and IDLE or ERROR. */
  lemma FetchReports(e: Emu)
    requires RetireFits(e)
    ensures var q, r, d := e.cmdq, Retire(e).cmdq, TailDesc(e);
      && r.lastSlot == q.tail % EntryCount(q.size) % 0x1_0000
      && r.lastOffset == (q.base + 32 * r.lastSlot) % W32 && r.lastAraddr == (e.umem.base + r.lastOffset) % W32
      && r.lastSequence == q.processed && r.lastWord0 == d.opcode && r.lastBeats == 8
      && r.fetchStatus == if d.opcode > 3 then 2 else 4
  {
    hide ReadDesc, EntryCount, SlotOffset, RunEngine, Override, DescFits, NpuFits, FbFits;
    var d := TailDesc(e);
    assert (Fetched(e.cmdq, e.umem.base, d.opcode)).lastSlot * DESC_BYTES
        == 32 * Fetched(e.cmdq, e.umem.base, d.opcode).lastSlot;
  }

  /** A doorbell with nothing to do reports an idle fetch of no beats and an empty queue. */
  lemma IdleDoorbell(e: Emu)
    requires e.cmdq.head == e.cmdq.tail
    ensures DrainFits(Started(e), EntryCount(e.cmdq.size))
    ensures var r := Process(e);
      && r == e.(cmdq := e.cmdq.(fetchStatus := 4, lastBeats := 0, status := r.cmdq.status))
      && r.cmdq.status / 0x1_0000 == e.cmdq.processed % 0x1_0000 && r.cmdq.status % 0x1_0000 == 4
  {
    hide EntryCount, Retire, RetireFits;
    QueueStatusBits(e.cmdq, false);
  }

  // ------------------------------------------------------------------ registers

  /** What is kept of a value written to a register. */
  function Kept(r: Reg, v: word): word {
    match r
    case NpuCfg0 => v / 0x1_0000 * 0x1_0000 + v % 0x100
    case GpuCmd => v % 0x100
    case GpuVertex0 => v % 0x1_0000
    case GpuVertex1 => v % 0x1_0000
    case GpuVertex2 => v % 0x1_0000
    case GpuClearValue => v % 0x100
    case GpuFbRowSel => v % 32
    case IrqEnable => v % 4
    case _ => v
  }

  lemma OperandWrites(e: Emu, v: word)
    ensures RegWrite(e, NpuInput0, v) == e.(npu := e.npu.(input0 := v))
    ensures RegWrite(e, NpuInput1, v) == e.(npu := e.npu.(input1 := v))
    ensures RegWrite(e, NpuBias0, v) == e.(npu := e.npu.(bias0 := v))
    ensures RegWrite(e, NpuBias1, v) == e.(npu := e.npu.(bias1 := v))
  {
    hide WriteFits, RunNpu, RunClear, RunDraw, Process, AfterNpuStart, WithQueue, Rings;
  }

  lemma WeightWrites(e: Emu, v: word)
    ensures RegWrite(e, NpuWeight0a, v) == e.(npu := e.npu.(weight0a := v))
    ensures RegWrite(e, NpuWeight0b, v) == e.(npu := e.npu.(weight0b := v))
    ensures RegWrite(e, NpuWeight1a, v) == e.(npu := e.npu.(weight1a := v))
    ensures RegWrite(e, NpuWeight1b, v) == e.(npu := e.npu.(weight1b := v))
  {
    hide WriteFits, RunNpu, RunClear, RunDraw, Process, AfterNpuStart, WithQueue, Rings;
  }

  lemma ShellWrites(e: Emu, v: word)
    ensures RegWrite(e, GpuFbRowSel, v) == e.(shell := e.shell.(rowSelect := v % 32))
    ensures RegWrite(e, IrqEnable, v) == e.(shell := e.shell.(irqEnable := v % 4))
  {
    hide WriteFits, RunNpu, RunClear, RunDraw, Process, AfterNpuStart, WithQueue, Rings;
  }

  lemma MemoryWrites(e: Emu, v: word)
    ensures RegWrite(e, UmemBase, v) == e.(umem := e.umem.(base := v))
    ensures RegWrite(e, UmemSize, v) == e.(umem := e.umem.(size := v))
    ensures RegWrite(e, UmemGpuFbPitch, v) == e.(umem := e.umem.(gpuPitch := v))
  {
    hide WriteFits, RunNpu, RunClear, RunDraw, Process, AfterNpuStart, WithQueue, Rings;
  }

  lemma RingWrites(e: Emu, v: word)
    ensures RegWrite(e, CmdqBase, v) == WithQueue(e, e.cmdq.(base := v))
    ensures RegWrite(e, CmdqSize, v) == WithQueue(e, e.cmdq.(size := v))
    ensures RegWrite(e, CmdqHead, v) == WithQueue(e, e.cmdq.(head := v))
    ensures RegWrite(e, CmdqTail, v) == WithQueue(e, e.cmdq.(tail := v))
  {
    hide WriteFits, RunNpu, RunClear, RunDraw, Process, AfterNpuStart, WithQueue, Rings;
  }

  lemma OperandsReadBack(e: Emu, r: Reg, v: word, q: Reg)
    requires r.NpuInput0? || r.NpuInput1? || r.NpuBias0? || r.NpuBias1?
    ensures ReadReg(RegWrite(e, r, v), q) == if q == r then Kept(r, v) else ReadReg(e, q)
  {
    hide RegWrite;
    OperandWrites(e, v);
  }

  lemma WeightsReadBack(e: Emu, r: Reg, v: word, q: Reg)
    requires r.NpuWeight0a? || r.NpuWeight0b? || r.NpuWeight1a? || r.NpuWeight1b?
    ensures ReadReg(RegWrite(e, r, v), q) == if q == r then Kept(r, v) else ReadReg(e, q)
  {
    hide RegWrite;
    WeightWrites(e, v);
  }

  lemma VerticesReadBack(e: Emu, r: Reg, v: word, q: Reg)
    requires r.GpuVertex0? || r.GpuVertex1? || r.GpuVertex2?
    ensures ReadReg(RegWrite(e, r, v), q) == if q == r then Kept(r, v) else ReadReg(e, q)
  {
    hide RegWrite;
    VertexWrites(e, v);
  }

  lemma CommandsReadBack(e: Emu, r: Reg, v: word, q: Reg)
    requires r.NpuCfg0? || r.GpuCmd? || r.GpuClearValue?
    ensures ReadReg(RegWrite(e, r, v), q) == if q == r then Kept(r, v) else ReadReg(e, q)
  {
    hide RegWrite;
    CommandWrites(e, v);
  }

  lemma ShellReadBack(e: Emu, r: Reg, v: word, q: Reg)
    requires r.GpuFbRowSel? || r.IrqEnable?
    ensures ReadReg(RegWrite(e, r, v), q) == if q == r then Kept(r, v) else ReadReg(e, q)
  {
    hide RegWrite;
    ShellWrites(e, v);
  }

  lemma NpuBuffersReadBack(e: Emu, r: Reg, v: word, q: Reg)
    requires r.UmemNpuInput? || r.UmemNpuWeight? || r.UmemNpuOutput?
    ensures ReadReg(RegWrite(e, r, v), q) == if q == r then Kept(r, v) else ReadReg(e, q)
  {
    hide RegWrite;
    BufferWrites(e, v);
  }

  lemma TargetReadBack(e: Emu, r: Reg, v: word, q: Reg)
    requires r.UmemCtrl? || r.UmemGpuFb?
    ensures ReadReg(RegWrite(e, r, v), q) == if q == r then Kept(r, v) else ReadReg(e, q)
  {
    hide RegWrite;
    TargetWrites(e, v);
  }

  lemma MemoryReadBack(e: Emu, r: Reg, v: word, q: Reg)
    requires r.UmemBase? || r.UmemSize? || r.UmemGpuFbPitch?
    ensures ReadReg(RegWrite(e, r, v), q) == if q == r then Kept(r, v) else ReadReg(e, q)
  {
    hide RegWrite;
    MemoryWrites(e, v);
  }

  lemma RingReadBack(e: Emu, r: Reg, v: word, q: Reg)
    requires r.CmdqBase? || r.CmdqSize? || r.CmdqHead? || r.CmdqTail?
    ensures ReadReg(RegWrite(e, r, v), q) == if q == r then Kept(r, v) else ReadReg(e, q)
  {
    hide RegWrite, QueueStatus;
    RingWrites(e, v);
  }

  /** A written register reads back, up to the bits it has, and no other register changes. */
  lemma WriteReadsBack(e: Emu, r: Reg, v: word, q: Reg)
    requires r != Control && r != Status && r != CmdqDoorbell
    ensures WriteFits(e, r, v)
    ensures ReadReg(RegWrite(e, r, v), q) == if q == r then Kept(r, v) else ReadReg(e, q)
  {
    hide ReadReg, RegWrite, Kept;
    match r {
      case NpuInput0 => OperandsReadBack(e, r, v, q);
      case NpuInput1 => OperandsReadBack(e, r, v, q);
      case NpuBias0 => OperandsReadBack(e, r, v, q);
      case NpuBias1 => OperandsReadBack(e, r, v, q);
      case NpuWeight0a => WeightsReadBack(e, r, v, q);
      case NpuWeight0b => WeightsReadBack(e, r, v, q);
      case NpuWeight1a => WeightsReadBack(e, r, v, q);
      case NpuWeight1b => WeightsReadBack(e, r, v, q);
      case GpuVertex0 => VerticesReadBack(e, r, v, q);
      case GpuVertex1 => VerticesReadBack(e, r, v, q);
      case GpuVertex2 => VerticesReadBack(e, r, v, q);
      case NpuCfg0 => CommandsReadBack(e, r, v, q);
      case GpuCmd => CommandsReadBack(e, r, v, q);
      case GpuClearValue => CommandsReadBack(e, r, v, q);
      case GpuFbRowSel => ShellReadBack(e, r, v, q);
      case IrqEnable => ShellReadBack(e, r, v, q);
      case UmemNpuInput => NpuBuffersReadBack(e, r, v, q);
      case UmemNpuWeight => NpuBuffersReadBack(e, r, v, q);
      case UmemNpuOutput => NpuBuffersReadBack(e, r, v, q);
      case UmemCtrl => TargetReadBack(e, r, v, q);
      case UmemGpuFb => TargetReadBack(e, r, v, q);
      case UmemBase => MemoryReadBack(e, r, v, q);
      case UmemSize => MemoryReadBack(e, r, v, q);
      case UmemGpuFbPitch => MemoryReadBack(e, r, v, q);
      case CmdqBase => RingReadBack(e, r, v, q);
      case CmdqSize => RingReadBack(e, r, v, q);
      case CmdqHead => RingReadBack(e, r, v, q);
      case CmdqTail => RingReadBack(e, r, v, q);
    }
  }

  /** STATUS shows busy and done of the NPU in bits 0 and 1, of the GPU in bits 2 and 3. */
  lemma StatusReads(e: Emu)
    ensures var s := ReadReg(e, Status);
      && s < 16 && Bit(s, 0) == e.npu.busy && Bit(s, 1) == e.npu.done
      && Bit(s, 2) == e.gpu.busy && Bit(s, 3) == e.gpu.done
  {
    var b0, b1 := if e.npu.busy then 1 else 0, if e.npu.done then 1 else 0;
    var b2, b3 := if e.gpu.busy then 1 else 0, if e.gpu.done then 1 else 0;
    var s: nat := ReadReg(e, Status);
    assert s / 2 == b1 + 2 * b2 + 4 * b3 && s / 2 / 2 == b2 + 2 * b3 && s / 2 / 2 / 2 == b3;
    assert Bit(s, 1) == Bit(s / 2, 0) && Bit(s, 2) == Bit(s / 2, 1) == Bit(s / 2 / 2, 0);
    assert Bit(s, 3) == Bit(s / 2, 2) == Bit(s / 2 / 2, 1) == Bit(s / 2 / 2 / 2, 0);
  }

  /** Writing STATUS clears the done flags whose bits are set, bit 0 the NPU's and bit 1 the
      GPU's, and changes nothing else. */
  lemma StatusClears(e: Emu, v: word)
    ensures var r := RegWrite(e, Status, v);
      && r.npu.done == (e.npu.done && !Bit(v, 0)) && r.gpu.done == (e.gpu.done && !Bit(v, 1))
      && r == e.(npu := e.npu.(done := r.npu.done), gpu := e.gpu.(done := r.gpu.done))
  {
    hide RunNpu, RunClear, RunDraw, Process, AfterNpuStart, WithQueue, Rings;
    assert Bit(v, 1) == Bit(v / 2, 0);
  }

  /** CONTROL: bit 0 starts the NPU, bit 1 then the GPU, with a clear for command 1 and a draw
      for any other. */
  lemma ControlStarts(e: Emu, v: word)
    requires WriteFits(e, Control, v)
    ensures var c := e.(shell := e.shell.(control := v));
      && (Bit(v, 0) ==> NpuFits(c.npu, c.umem, c.mem))
      && var n := if Bit(v, 0) then RunNpu(c) else c;
      && (Bit(v, 1) ==> FbFits(n.umem, n.mem))
      && RegWrite(e, Control, v) == if !Bit(v, 1) then n else if n.gpu.opcode == 1 then RunClear(n) else RunDraw(n)
  {
    hide RunClear, RunDraw, Process, NpuFits, FbFits, Infer, LoadOperands, WriteWords;
    assert Bit(v, 1) == Bit(v / 2, 0);
  }
}
