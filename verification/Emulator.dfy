/** The emulator object: every function of the C emulator that the queue and the
    registers reach, updating its state in place. */
module Emulator {
  import opened Bits
  import opened UnifiedMem
  import opened EmuSpec

  class Accel {
    var shell: Shell
    var npu: Npu
    var gpu: Gpu
    var umem: Umem
    var cmdq: Cmdq
    const framebuffer: array<nat>
    const unifiedMem: array<byte>

    constructor ()
      ensures Valid() && fresh(framebuffer) && fresh(unifiedMem)
      ensures shell == Shell(0, 0, 0) && npu == InitialNpu() && gpu == InitialGpu()
      ensures umem == InitialUmem() && cmdq == InitialCmdq()
      ensures npu.modelId == 1 && npu.seqLength == 8 && npu.input0 == 0x0403_0201 && npu.input1 == 0
      ensures npu.weight0a == npu.weight1b == 0x0101_0101 && npu.weight0b == npu.weight1a == 0xFFFF_FFFF
      ensures gpu.opcode == 2 && gpu.vertex0 == 0x0202 && gpu.vertex1 == 0x020A && gpu.vertex2 == 0x0A02
      ensures umem.ctrl == 0 && umem.base == 0x1000_0000 && umem.size == 0x1_0000 && umem.gpuPitch == 4
      ensures umem.npuInput == 0 && umem.npuWeight == 0x100 && umem.npuOutput == 0x200 && umem.gpuFb == 0x1000
      ensures cmdq.base == 0x2000 && cmdq.size == 0x100 && cmdq.head == cmdq.tail == cmdq.processed == 0
      ensures cmdq.status == cmdq.fetchStatus == cmdq.dispatchStatus == cmdq.execStatus == 4
      ensures framebuffer[..] == Raster.BlankFrame() && forall b | b in unifiedMem[..] :: b == 0
    {
      shell, npu, gpu, umem, cmdq := Shell(0, 0, 0), InitialNpu(), InitialGpu(), InitialUmem(), InitialCmdq();
      framebuffer := new nat[32](_ => 0);
      unifiedMem := new byte[UMEM_BYTES](_ => 0);
      new;
      assert framebuffer[..] == Raster.BlankFrame();
    }

    ghost predicate Valid()
      reads this
    {
      framebuffer.Length == 32 && unifiedMem.Length == UMEM_BYTES
    }

    ghost function State(): Emu
      reads this, framebuffer, unifiedMem
      requires Valid()
    {
      Emu(shell, npu, gpu, umem, cmdq, framebuffer[..], unifiedMem[..])
    }

    // ---------------------------------------------------------------- memory

    method UmemRead32(off: nat) returns (v: word)
      requires Valid() && off + 4 <= Limit(umem)
      ensures v == Read32(unifiedMem[..], off)
    {
      v := WordOf(unifiedMem[off], unifiedMem[off + 1], unifiedMem[off + 2], unifiedMem[off + 3]);
    }

    method UmemWrite32(off: nat, v: word)
      requires Valid() && off + 4 <= Limit(umem)
      modifies unifiedMem
      ensures unifiedMem[..] == Write32(old(unifiedMem[..]), off, v)
    {
      StoreWord(off, v);
    }

    method StoreWord(off: nat, v: word)
      requires Valid() && off + 4 <= UMEM_BYTES
      modifies unifiedMem
      ensures unifiedMem[..] == Write32(old(unifiedMem[..]), off, v)
    {
      unifiedMem[off] := ByteOf(v, 0);
      unifiedMem[off + 1] := ByteOf(v, 1);
      unifiedMem[off + 2] := ByteOf(v, 2);
      unifiedMem[off + 3] := ByteOf(v, 3);
    }

    // ---------------------------------------------------------------- NPU

    method LoadNpuOperands()
      requires Valid() && NpuFits(npu, umem, unifiedMem[..])
      modifies this`npu
      ensures npu == LoadOperands(old(npu), umem, unifiedMem[..])
    {
      if BufferEnabled(umem.ctrl, CTRL_NPU_USE_BUF) {
        var a := UmemRead32(umem.npuInput);
        var b := UmemRead32(umem.npuInput + 4);
        npu := npu.(input0 := a, input1 := b);
        if IsRuntime(npu.modelId) {
          LoadNpuWeights();
        }
      }
    }

    method LoadNpuWeights()
      requires Valid() && umem.npuWeight + 24 <= Limit(umem)
      modifies this`npu
      ensures var m, o := unifiedMem[..], umem.npuWeight;
        npu == old(npu).(weight0a := Read32(m, o), weight0b := Read32(m, o + 4),
                         weight1a := Read32(m, o + 8), weight1b := Read32(m, o + 12),
                         bias0 := Read32(m, o + 16), bias1 := Read32(m, o + 20))
    {
      var off := umem.npuWeight;
      var a := UmemRead32(off);
      var b := UmemRead32(off + 4);
      var c := UmemRead32(off + 8);
      var d := UmemRead32(off + 12);
      var x := UmemRead32(off + 16);
      var y := UmemRead32(off + 20);
      npu := npu.(weight0a := a, weight0b := b, weight1a := c, weight1b := d, bias0 := x, bias1 := y);
    }

    method StoreNpuOutput()
      requires Valid() && umem.npuOutput + 24 <= Limit(umem)
      modifies unifiedMem
      ensures unifiedMem[..] == WriteWords(old(unifiedMem[..]), umem.npuOutput, OutputWords(npu))
    {
      var off := umem.npuOutput;
      ghost var m, w := unifiedMem[..], OutputWords(npu);
      UmemWrite32(off, npu.statusWord);
      UmemWrite32(off + 4, Wrap(npu.logit0));
      UmemWrite32(off + 8, Wrap(npu.logit1));
      UmemWrite32(off + 12, npu.classId);
      UmemWrite32(off + 16, Wrap(npu.hidden0));
      UmemWrite32(off + 20, Wrap(npu.hidden1));
      SixWrites(m, off, w);
    }

    /** The byte at a shift of 8 * lane, read as a signed one. */
    static method UnpackI8(w: word, lane: nat) returns (value: int)
      requires lane < 4
      ensures value == SignedByte(w, lane)
    {
      value := ByteOf(w, lane);
      if value >= 0x80 { value := value - 0x100; }
    }

    static method DotI8(lhs: word, rhs: word) returns (sum: int)
      ensures sum == Dot4(lhs, rhs)
    {
      sum := 0;
      for lane := 0 to 4
        invariant sum == LaneSum(lhs, rhs, lane)
      {
        var a := UnpackI8(lhs, lane);
        var b := UnpackI8(rhs, lane);
        sum := sum + a * b;
      }
      FourLanes(lhs, rhs);
    }

    method ChooseWeights() returns (w: Weights)
      ensures w == SelectWeights(npu)
    {
      match npu.modelId
      case 0x02 => w := Weights(0xFFFF_FFFF, 0x0101_0101, 0x0101_0101, 0xFFFF_FFFF, 2, -2);
      case 0x80 | 0x81 =>
        w := Weights(npu.weight0a, npu.weight0b, npu.weight1a, npu.weight1b, AsInt32(npu.bias0), AsInt32(npu.bias1));
      case _ => w := Weights(0x0101_0101, 0xFFFF_FFFF, 0xFFFF_FFFF, 0x0101_0101, 0, 0);
    }

    method ComputeResults()
      modifies this`npu
      ensures npu == Infer(old(npu))
    {
      hide Dot4, AsInt32;
      var w := ChooseWeights();
      var a0 := DotI8(npu.input0, w.w0a);
      var b0 := DotI8(npu.input1, w.w0b);
      var a1 := DotI8(npu.input0, w.w1a);
      var b1 := DotI8(npu.input1, w.w1b);
      var linear0, linear1 := AsInt32(a0 + b0 + w.b0), AsInt32(a1 + b1 + w.b1);
      if npu.modelId == MODEL_RUNTIME_MLP {
        npu := npu.(hidden0 := if linear0 > 0 then linear0 else 0, hidden1 := if linear1 > 0 then linear1 else 0);
        npu := npu.(logit0 := npu.hidden0 - npu.hidden1, logit1 := npu.hidden1 - npu.hidden0);
      } else {
        npu := npu.(hidden0 := linear0, hidden1 := linear1, logit0 := linear0, logit1 := linear1);
      }
      npu := npu.(classId := if npu.logit1 > npu.logit0 then 1 else 0);
      npu := npu.(statusWord := 0x4E * 0x100_0000 + npu.classId * 0x1_0000 + npu.modelId * 0x100 + npu.seqLength % 256);
    }

    method RunNpu()
      requires Valid() && NpuFits(npu, umem, unifiedMem[..])
      modifies this`npu, unifiedMem
      ensures State() == EmuSpec.RunNpu(old(State()))
    {
      hide Infer;
      npu := npu.(busy := true);
      LoadNpuOperands();
      ComputeResults();
      if BufferEnabled(umem.ctrl, CTRL_NPU_USE_BUF) {
        StoreNpuOutput();
      }
      npu := npu.(busy := false, done := true);
    }

    // ---------------------------------------------------------------- GPU

    method SyncFramebuffer()
      requires Valid() && FbFits(umem, unifiedMem[..])
      modifies unifiedMem
      ensures unifiedMem[..] == SyncFb(umem, framebuffer[..], old(unifiedMem[..]))
    {
      if !BufferEnabled(umem.ctrl, CTRL_GPU_USE_BUF) {
        return;
      }
      hide Write32, BufferEnabled;
      ghost var m, fb := unifiedMem[..], framebuffer[..];
      for row := 0 to 32
        invariant framebuffer[..] == fb
        invariant unifiedMem[..] == CopyRows(m, umem, fb, row)
      {
        assert RowOffset(umem, row) + 4 <= Limit(umem);
        UmemWrite32(Wrap(umem.gpuFb + row * umem.gpuPitch), Wrap(framebuffer[row]));
      }
    }

    method RunGpuClear()
      requires Valid() && FbFits(umem, unifiedMem[..])
      modifies this`gpu, framebuffer, unifiedMem
      ensures State() == RunClear(old(State()))
    {
      var fill := if gpu.clearValue % 2 == 1 then 0xFFFF_FFFF else 0;
      gpu := gpu.(busy := true);
      for row := 0 to 32
        modifies framebuffer
        invariant forall r :: 0 <= r < row ==> framebuffer[r] == fill
      {
        framebuffer[row] := fill;
      }
      assert framebuffer[..] == FilledFrame(fill) && unifiedMem[..] == old(unifiedMem[..]);
      gpu := gpu.(pixels := 0, area2 := 0, bbox := 0, frames := Wrap(gpu.frames + 1));
      SyncFramebuffer();
      gpu := gpu.(busy := false, done := true);
    }

    /** The nested raster loops over the bounding box, clipped above only. */
    method RasterLoops(t: Raster.Triangle)
      requires Valid() && t.Bytes()
      modifies this`gpu, framebuffer
      ensures framebuffer[..] == Raster.PaintGrid(old(framebuffer[..]), t)
      ensures gpu == old(gpu).(pixels := Wrap(|t.Cover()|))
    {
      hide Raster.Edge, Raster.Triangle.Area2, Raster.Triangle.Inside, Raster.PaintGrid, Raster.Painted;
      var minX, maxX := t.MinX(), Raster.Min(t.MaxX(), 31);
      var minY, maxY := t.MinY(), Raster.Min(t.MaxY(), 31);
      ghost var before: Raster.Frame := framebuffer[..];
      ghost var cover := t.Cover();
      Raster.CoverInBox(t);
      Raster.ScanStart(cover, minX, minY);
      Raster.ScanEmpty(before);
      var count := 0;
      var y := minY;
      while y <= maxY
        modifies framebuffer
        invariant minY <= y && (minY <= maxY + 1 ==> y <= maxY + 1)
        invariant Raster.Painted(before, framebuffer[..], Raster.Scanned(cover, minX, y))
        invariant count == |Raster.Scanned(cover, minX, y)|
      {
        count := RasterRow(t, minX, maxX, y, count, before, cover);
        if minX <= maxX {
          Raster.ScanNewRow(cover, minX, maxX, y);
        } else {
          assert cover == {} == Raster.Scanned(cover, minX, y) == Raster.Scanned(cover, minX, y + 1);
        }
        y := y + 1;
      }
      Raster.ScanDone(cover, minX, y);
      gpu := gpu.(pixels := Wrap(count));
      Raster.PaintGridPaints(before, t);
      Raster.PaintedUnique(before, framebuffer[..], Raster.PaintGrid(before, t), cover);
    }

    method RasterRow(t: Raster.Triangle, minX: int, maxX: int, y: int, count: nat,
                     ghost before: Raster.Frame, ghost cover: set<Raster.Point>) returns (n: nat)
      requires Valid() && t.Bytes() && cover == t.Cover()
      requires 0 <= minX && maxX <= 31 && 0 <= y <= 31
      requires Raster.Painted(before, framebuffer[..], Raster.Scanned(cover, minX, y))
      requires count == |Raster.Scanned(cover, minX, y)|
      modifies framebuffer
      ensures var end := Raster.Max(minX, maxX + 1);
        Raster.Painted(before, framebuffer[..], Raster.Scanned(cover, end, y)) && n == |Raster.Scanned(cover, end, y)|
    {
      var x := minX;
      n := count;
      while x <= maxX
        invariant minX <= x <= Raster.Max(minX, maxX + 1)
        invariant Raster.Painted(before, framebuffer[..], Raster.Scanned(cover, x, y))
        invariant n == |Raster.Scanned(cover, x, y)|
      {
        var inside := InsideTest(t, x, y);
        Raster.ScanPaint(before, framebuffer[..], cover, x, y);
        Raster.ScanStep(cover, x, y);
        if inside {
          framebuffer[y] := Or(framebuffer[y], Pow2(x));
          n := n + 1;
        }
        x := x + 1;
      }
    }

    method InsideTest(t: Raster.Triangle, x: int, y: int) returns (inside: bool)
      requires 0 <= x < 32 && 0 <= y < 32
      ensures inside <==> Raster.Point(x, y) in t.Cover()
    {
      var p := Raster.Point(x, y);
      var e0 := Raster.Edge(t.v0, t.v1, p);
      var e1 := Raster.Edge(t.v1, t.v2, p);
      var e2 := Raster.Edge(t.v2, t.v0, p);
      inside := false;
      if t.Area2() > 0 {
        inside := e0 >= 0 && e1 >= 0 && e2 >= 0;
      } else if t.Area2() < 0 {
        inside := e0 <= 0 && e1 <= 0 && e2 <= 0;
      }
    }

    method RunGpuDraw()
      requires Valid() && FbFits(umem, unifiedMem[..])
      modifies this`gpu, framebuffer, unifiedMem
      ensures State() == RunDraw(old(State()))
    {
      var t := TriangleOf(gpu);
      gpu := gpu.(busy := true, area2 := t.Area2(), bbox := Bbox(t), pixels := 0);
      RasterLoops(t);
      gpu := gpu.(triangles := Wrap(gpu.triangles + 1), frames := Wrap(gpu.frames + 1));
      SyncFramebuffer();
      gpu := gpu.(busy := false, done := true);
    }

    // ---------------------------------------------------------------- queue

    method ReadDescriptor(off: nat) returns (d: Desc)
      requires Valid() && off + 32 <= Limit(umem)
      ensures d == ReadDesc(unifiedMem[..], off)
      ensures var m := unifiedMem[..];
        && d.opcode == Read32(m, off) && d.flags == Read32(m, off + 4) && d.src0 == Read32(m, off + 8)
        && d.src1 == Read32(m, off + 12) && d.src2 == Read32(m, off + 16) && d.dst0 == Read32(m, off + 20)
        && d.arg0 == Read32(m, off + 24) && d.arg1 == Read32(m, off + 28)
    {
      var w0 := UmemRead32(off);
      var w1 := UmemRead32(off + 4);
      var w2 := UmemRead32(off + 8);
      var w3 := UmemRead32(off + 12);
      var w4 := UmemRead32(off + 16);
      var w5 := UmemRead32(off + 20);
      var w6 := UmemRead32(off + 24);
      var w7 := UmemRead32(off + 28);
      d := Desc(w0, w1, w2, w3, w4, w5, w6, w7);
    }

    /** What holds when the opcode is looked at: nothing but the dispatch words has changed. */
    ghost predicate Dispatching(e: Emu, d: Desc)
      requires Valid()
      reads this, framebuffer, unifiedMem
    {
      State() == e.(cmdq := e.cmdq.(dispatchOpcode := d.opcode, dispatchStatus := STATUS_BUSY))
    }

    method ExecuteNpu(d: Desc, ghost e: Emu)
      requires Valid() && d.opcode == OP_NPU_INFER && DescFits(e, d) && Dispatching(e, d)
      modifies this`npu, this`gpu, this`umem, this`cmdq, framebuffer, unifiedMem
      ensures State() == RunEngine(Override(e, d), d).(cmdq := Account(e.cmdq, d, Override(e, d).npu.modelId))
    {
      hide EmuSpec.RunNpu, NpuFits, OrWord;
      umem := umem.(ctrl := OrWord(umem.ctrl, CTRL_ENABLE + CTRL_NPU_USE_BUF),
                    npuInput := d.src0, npuWeight := d.src1, npuOutput := d.dst0);
      cmdq := cmdq.(execInput := d.src0, execOutput := d.dst0);
      npu := npu.(modelId := if d.flags % 256 != 0 then d.flags % 256 else npu.modelId,
                  seqLength := if d.arg0 != 0 then d.arg0 % 0x1_0000 else 8);
      cmdq := cmdq.(execModel := npu.modelId, execCount := (cmdq.execCount + 1) % 0x1_0000);
      EngineIgnoresQueue(Override(e, d), cmdq);
      assert State() == Override(e, d).(cmdq := cmdq);
      RunNpu();
      cmdq := cmdq.(execStatus := ExecStatus(cmdq, false), npuCount := Wrap(cmdq.npuCount + 1),
                    dispatchStatus := STATUS_IDLE);
    }

    method ExecuteClear(d: Desc, ghost e: Emu)
      requires Valid() && d.opcode == OP_GPU_CLEAR && DescFits(e, d) && Dispatching(e, d)
      modifies this`gpu, this`umem, this`cmdq, framebuffer, unifiedMem
      ensures State() == RunEngine(Override(e, d), d).(cmdq := Account(e.cmdq, d, Override(e, d).npu.modelId))
    {
      hide RunClear, FbFits, GpuTarget;
      umem := GpuTarget(umem, d);
      gpu := gpu.(opcode := GPU_CMD_CLEAR, clearValue := d.arg0 % 256);
      EngineIgnoresQueue(Override(e, d), cmdq);
      assert State() == Override(e, d).(cmdq := cmdq);
      RunGpuClear();
      cmdq := cmdq.(gpuCount := Wrap(cmdq.gpuCount + 1), dispatchStatus := STATUS_IDLE);
    }

    method ExecuteDraw(d: Desc, ghost e: Emu)
      requires Valid() && d.opcode == OP_GPU_DRAW_TRI && DescFits(e, d) && Dispatching(e, d)
      modifies this`gpu, this`umem, this`cmdq, framebuffer, unifiedMem
      ensures State() == RunEngine(Override(e, d), d).(cmdq := Account(e.cmdq, d, Override(e, d).npu.modelId))
    {
      hide RunDraw, FbFits, GpuTarget;
      umem := GpuTarget(umem, d);
      gpu := gpu.(opcode := GPU_CMD_DRAW_TRI, vertex0 := d.src0 % 0x1_0000,
                  vertex1 := d.src1 % 0x1_0000, vertex2 := d.src2 % 0x1_0000);
      EngineIgnoresQueue(Override(e, d), cmdq);
      assert State() == Override(e, d).(cmdq := cmdq);
      RunGpuDraw();
      cmdq := cmdq.(gpuCount := Wrap(cmdq.gpuCount + 1), dispatchStatus := STATUS_IDLE);
    }

    /** The switch over opcodes. */
    method Dispatch(d: Desc) returns (ok: bool)
      requires Valid() && DescFits(State(), d)
      modifies this`npu, this`gpu, this`umem, this`cmdq, framebuffer, unifiedMem
      ensures ok == Known(d)
      ensures var e := old(State());
        State() == RunEngine(Override(e, d), d).(cmdq := Account(e.cmdq, d, Override(e, d).npu.modelId))
    {
      hide EmuSpec.RunNpu, RunClear, RunDraw, NpuFits, FbFits, GpuTarget, OrWord;
      ghost var e := State();
      ok := true;
      cmdq := cmdq.(dispatchOpcode := d.opcode, dispatchStatus := STATUS_BUSY);
      assert Dispatching(e, d);
      if d.opcode == OP_NOP {
        cmdq := cmdq.(dispatchStatus := STATUS_IDLE);
      } else if d.opcode == OP_NPU_INFER {
        ExecuteNpu(d, e);
      } else if d.opcode == OP_GPU_CLEAR {
        ExecuteClear(d, e);
      } else if d.opcode == OP_GPU_DRAW_TRI {
        ExecuteDraw(d, e);
      } else {
        ok := false;
        cmdq := cmdq.(errorCount := Wrap(cmdq.errorCount + 1), dispatchStatus := STATUS_ERROR);
      }
    }

    method ExecuteDesc(off: nat) returns (ok: bool)
      requires Valid() && off + 32 <= Limit(umem) && DescFits(State(), ReadDesc(unifiedMem[..], off))
      modifies this`npu, this`gpu, this`umem, this`cmdq, framebuffer, unifiedMem
      ensures State() == Execute(old(State()), off)
      ensures ok == Known(ReadDesc(old(unifiedMem[..]), off))
    {
      hide RunEngine, Account, Override, ReadDesc, DescFits;
      var d := ReadDescriptor(off);
      var oldNpu, oldGpu, oldUmem := npu, gpu, umem;
      ok := Dispatch(d);
      WriteFlags(off, d);
      umem := umem.(ctrl := oldUmem.ctrl, npuInput := oldUmem.npuInput, npuWeight := oldUmem.npuWeight,
                    npuOutput := oldUmem.npuOutput, gpuFb := oldUmem.gpuFb);
      npu := npu.(modelId := oldNpu.modelId, seqLength := oldNpu.seqLength);
      gpu := gpu.(opcode := oldGpu.opcode, vertex0 := oldGpu.vertex0, vertex1 := oldGpu.vertex1,
                  vertex2 := oldGpu.vertex2, clearValue := oldGpu.clearValue);
    }

    /** The descriptor was reached through a pointer, so this store is not range-checked again. */
    method WriteFlags(off: nat, d: Desc)
      requires Valid() && off + 32 <= UMEM_BYTES
      modifies unifiedMem
      ensures unifiedMem[..] == Write32(old(unifiedMem[..]), off + 4, DoneFlags(d))
    {
      StoreWord(off + 4, d.flags % 256 + FLAG_DONE + if Known(d) then 0 else FLAG_ERROR);
    }

    method CmdqProcess()
      requires Valid() && DrainFits(Started(State()), EntryCount(cmdq.size))
      modifies this`npu, this`gpu, this`umem, this`cmdq, framebuffer, unifiedMem
      ensures State() == Process(old(State()))
    {
      hide Execute, DescFits, ReadDesc, Retire, RetireFits;
      var n := EntryCount(cmdq.size);
      var safety := n;
      var errorSeen := false;
      cmdq := cmdq.(status := cmdq.processed % 0x1_0000 * 0x1_0000 + STATUS_BUSY,
                    fetchStatus := if cmdq.head == cmdq.tail then STATUS_IDLE else STATUS_BUSY, lastBeats := 0);
      ghost var start := State();
      assert start == Started(old(State()));
      while cmdq.tail != cmdq.head && safety != 0
        invariant safety <= n && DrainFits(State(), safety)
        invariant Drain(start, n) == Drain(State(), safety)
        invariant !AllKnown(Executed(start, n)) == (errorSeen || !AllKnown(Executed(State(), safety)))
        invariant shell == start.shell
        decreases safety
      {
        ghost var before := State();
        var ok := RetireOne();
        assert Executed(before, safety) == [TailDesc(before)] + Executed(State(), safety - 1);
        errorSeen := errorSeen || !ok;
        safety := safety - 1;
      }
      if cmdq.tail != cmdq.head {
        errorSeen := true;
        cmdq := cmdq.(fetchStatus := STATUS_ERROR);
      }
      cmdq := cmdq.(status := QueueStatus(cmdq, errorSeen));
    }

    method RetireOne() returns (ok: bool)
      requires Valid() && RetireFits(State())
      modifies this`npu, this`gpu, this`umem, this`cmdq, framebuffer, unifiedMem
      ensures State() == Retire(old(State()))
      ensures ok == Known(TailDesc(old(State())))
    {
      hide Execute, ReadDesc, DescFits, EntryCount;
      ghost var e, d := State(), TailDesc(State());
      FetchIgnored(e, d);
      NoteFetch(d);
      ok := ExecuteDesc(SlotOffset(cmdq, cmdq.tail));
      cmdq := cmdq.(fetchStatus := if ok then STATUS_IDLE else STATUS_ERROR,
                    tail := Wrap(cmdq.tail + 1) % EntryCount(cmdq.size), processed := Wrap(cmdq.processed + 1));
    }

    method NoteFetch(ghost d: Desc)
      requires Valid() && RetireFits(State()) && d == TailDesc(State())
      modifies this`cmdq
      ensures cmdq == Fetched(old(cmdq), umem.base, d.opcode)
    {
      hide DescFits, EntryCount, SlotOffset;
      var n := EntryCount(cmdq.size);
      var opcode := UmemRead32(SlotOffset(cmdq, cmdq.tail));
      cmdq := cmdq.(lastSlot := cmdq.tail % n % 0x1_0000);
      cmdq := cmdq.(lastOffset := Wrap(cmdq.base + cmdq.lastSlot * DESC_BYTES), lastSequence := cmdq.processed);
      cmdq := cmdq.(lastAraddr := Wrap(umem.base + cmdq.lastOffset), lastWord0 := opcode, lastBeats := 8);
    }

    // ---------------------------------------------------------------- registers

    method RegWrite(r: Reg, v: word)
      requires Valid() && WriteFits(State(), r, v)
      modifies this, framebuffer, unifiedMem
      ensures State() == EmuSpec.RegWrite(old(State()), r, v)
    {
      match r {
        case Control => WriteControl(v);
        case Status =>
          if v % 2 == 1 { npu := npu.(done := false); }
          if v / 2 % 2 == 1 { gpu := gpu.(done := false); }
        case NpuCfg0 => npu := npu.(modelId := v % 256, seqLength := v / 0x1_0000);
        case NpuInput0 => npu := npu.(input0 := v);
        case NpuInput1 => npu := npu.(input1 := v);
        case NpuWeight0a => npu := npu.(weight0a := v);
        case NpuWeight0b => npu := npu.(weight0b := v);
        case NpuWeight1a => npu := npu.(weight1a := v);
        case NpuWeight1b => npu := npu.(weight1b := v);
        case NpuBias0 => npu := npu.(bias0 := v);
        case NpuBias1 => npu := npu.(bias1 := v);
        case GpuCmd => gpu := gpu.(opcode := v % 256);
        case GpuVertex0 => gpu := gpu.(vertex0 := v % 0x1_0000);
        case GpuVertex1 => gpu := gpu.(vertex1 := v % 0x1_0000);
        case GpuVertex2 => gpu := gpu.(vertex2 := v % 0x1_0000);
        case GpuClearValue => gpu := gpu.(clearValue := v % 256);
        case GpuFbRowSel => shell := shell.(rowSelect := v % 32);
        case IrqEnable => shell := shell.(irqEnable := v % 4);
        case UmemCtrl => umem := umem.(ctrl := v);
        case UmemBase => umem := umem.(base := v);
        case UmemSize => umem := umem.(size := v);
        case UmemNpuInput => umem := umem.(npuInput := v);
        case UmemNpuWeight => umem := umem.(npuWeight := v);
        case UmemNpuOutput => umem := umem.(npuOutput := v);
        case UmemGpuFb => umem := umem.(gpuFb := v);
        case UmemGpuFbPitch => umem := umem.(gpuPitch := v);
        case CmdqBase => cmdq := cmdq.(base := v); RefreshStatus();
        case CmdqSize => cmdq := cmdq.(size := v); RefreshStatus();
        case CmdqHead => cmdq := cmdq.(head := v); RefreshStatus();
        case CmdqTail => cmdq := cmdq.(tail := v); RefreshStatus();
        case CmdqDoorbell =>
          cmdq := cmdq.(doorbell := v);
          if And(umem.ctrl, CTRL_CMDQ_ENABLE) != 0 && v != 0 {
            CmdqProcess();
          } else {
            RefreshStatus();
          }
      }
    }

    method RegRead(r: Reg) returns (v: word)
      requires Valid()
      ensures v == ReadReg(State(), r)
    {
      match r {
        case Control => v := shell.control;
        case Status =>
          v := if npu.busy then 1 else 0;
          if npu.done { v := v + 2; }
          if gpu.busy { v := v + 4; }
          if gpu.done { v := v + 8; }
        case NpuCfg0 => v := npu.seqLength * 0x1_0000 + npu.modelId;
        case NpuInput0 => v := npu.input0;
        case NpuInput1 => v := npu.input1;
        case NpuWeight0a => v := npu.weight0a;
        case NpuWeight0b => v := npu.weight0b;
        case NpuWeight1a => v := npu.weight1a;
        case NpuWeight1b => v := npu.weight1b;
        case NpuBias0 => v := npu.bias0;
        case NpuBias1 => v := npu.bias1;
        case GpuCmd => v := gpu.opcode;
        case GpuVertex0 => v := gpu.vertex0;
        case GpuVertex1 => v := gpu.vertex1;
        case GpuVertex2 => v := gpu.vertex2;
        case GpuClearValue => v := gpu.clearValue;
        case GpuFbRowSel => v := shell.rowSelect;
        case IrqEnable => v := shell.irqEnable % 4;
        case UmemCtrl => v := umem.ctrl;
        case UmemBase => v := umem.base;
        case UmemSize => v := umem.size;
        case UmemNpuInput => v := umem.npuInput;
        case UmemNpuWeight => v := umem.npuWeight;
        case UmemNpuOutput => v := umem.npuOutput;
        case UmemGpuFb => v := umem.gpuFb;
        case UmemGpuFbPitch => v := umem.gpuPitch;
        case CmdqBase => v := cmdq.base;
        case CmdqSize => v := cmdq.size;
        case CmdqHead => v := cmdq.head;
        case CmdqTail => v := cmdq.tail;
        case CmdqDoorbell => v := cmdq.doorbell;
      }
    }

    method RefreshStatus()
      modifies this`cmdq
      ensures cmdq == old(cmdq).(status := QueueStatus(old(cmdq), false))
    {
      cmdq := cmdq.(status := QueueStatus(cmdq, false));
    }

    method WriteControl(v: word)
      requires Valid() && WriteFits(State(), Control, v)
      modifies this, framebuffer, unifiedMem
      ensures State() == EmuSpec.RegWrite(old(State()), Control, v)
    {
      hide EmuSpec.RunNpu, RunClear, RunDraw, NpuFits, FbFits;
      shell := shell.(control := v);
      ghost var c := State();
      if v % 2 == 1 {
        RunNpu();
      }
      assert State() == AfterNpuStart(old(State()), v);
      if v / 2 % 2 == 1 {
        if gpu.opcode == GPU_CMD_CLEAR {
          RunGpuClear();
        } else {
          RunGpuDraw();
        }
      }
    }
  }

  /** The products of the first `n` lanes. */
  function LaneSum(a: word, b: word, n: nat): int
    requires n <= 4
  {
    if n == 0 then 0 else LaneSum(a, b, n - 1) + SignedByte(a, n - 1) * SignedByte(b, n - 1)
  }

  lemma FourLanes(a: word, b: word)
    ensures LaneSum(a, b, 4) == Dot4(a, b)
  {
    hide SignedByte;
    assert LaneSum(a, b, 1) == SignedByte(a, 0) * SignedByte(b, 0);
    assert LaneSum(a, b, 2) == LaneSum(a, b, 1) + SignedByte(a, 1) * SignedByte(b, 1);
    assert LaneSum(a, b, 3) == LaneSum(a, b, 2) + SignedByte(a, 2) * SignedByte(b, 2);
  }

  /** Queue bookkeeping plays no part in what an engine computes. */
  lemma EngineIgnoresQueue(e: Emu, q: Cmdq)
    ensures NpuFits(e.npu, e.umem, e.mem) ==> EmuSpec.RunNpu(e.(cmdq := q)) == EmuSpec.RunNpu(e).(cmdq := q)
    ensures FbFits(e.umem, e.mem) ==> RunClear(e.(cmdq := q)) == RunClear(e).(cmdq := q)
    ensures FbFits(e.umem, e.mem) ==> RunDraw(e.(cmdq := q)) == RunDraw(e).(cmdq := q)
  {
  }

  /** Queue bookkeeping plays no part in what a descriptor may touch. */
  lemma FetchIgnored(e: Emu, d: Desc)
    ensures forall q: Cmdq :: DescFits(e.(cmdq := q), d) == DescFits(e, d)
  {
  }

  lemma SixWrites(m: seq<byte>, off: nat, w: seq<word>)
    requires |w| == 6 && off + 24 <= |m|
    ensures WriteWords(m, off, w) ==
      Write32(Write32(Write32(Write32(Write32(Write32(m, off, w[0]), off + 4, w[1]), off + 8, w[2]),
              off + 12, w[3]), off + 16, w[4]), off + 20, w[5])
  {
    var m1 := Write32(m, off, w[0]);
    var m2 := Write32(m1, off + 4, w[1]);
    var m3 := Write32(m2, off + 8, w[2]);
    assert w[1..][1..] == w[2..] && w[2..][1..] == w[3..] && w[3..][1..] == w[4..] && w[4..][1..] == w[5..];
    assert WriteWords(m, off, w) == WriteWords(m1, off + 4, w[1..]) == WriteWords(m2, off + 8, w[2..]);
    assert WriteWords(m2, off + 8, w[2..]) == WriteWords(m3, off + 12, w[3..]);
    var m4 := Write32(m3, off + 12, w[3]);
    var m5 := Write32(m4, off + 16, w[4]);
    var m6 := Write32(m5, off + 20, w[5]);
    assert WriteWords(m3, off + 12, w[3..]) == WriteWords(m4, off + 16, w[4..]) == WriteWords(m5, off + 20, w[5..]);
    assert w[5..][1..] == [] && WriteWords(m5, off + 20, w[5..]) == WriteWords(m6, off + 24, []);
  }
}
