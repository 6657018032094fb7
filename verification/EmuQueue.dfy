/** What executing descriptors means: the same as programming the registers, and a
    drain that handles exactly the pending ones. */
module EmuQueue {
  import opened Bits
  import opened UnifiedMem
  import opened EmuSpec

  // ------------------------------------------------------------------ descriptors against registers

  /** What a descriptor asks for, programmed one register write at a time: the buffer is
      switched on in the control word, and each register is written from the descriptor's own
      fields.  A model or length of zero stands for the register's model and for 8. */
  function ProgramNpu(e: Emu, d: Desc): Emu {
    var model := if d.flags % 256 != 0 then d.flags % 256 else e.npu.modelId;
    var length := if d.arg0 != 0 then d.arg0 % 0x1_0000 else 8;
    var a := RegWrite(e, UmemCtrl, OrWord(e.umem.ctrl, 1 + 2));
    var b := RegWrite(a, UmemNpuInput, d.src0);
    var c := RegWrite(b, UmemNpuWeight, d.src1);
    var f := RegWrite(c, UmemNpuOutput, d.dst0);
    RegWrite(f, NpuCfg0, length * 0x1_0000 + model)
  }

  /** The framebuffer goes to dst0, or where the register says if that is zero. */
  function ProgramTarget(e: Emu, d: Desc): Emu {
    var a := RegWrite(e, UmemCtrl, OrWord(e.umem.ctrl, 1 + 4));
    if d.dst0 != 0 then RegWrite(a, UmemGpuFb, d.dst0) else a
  }

  function ProgramClear(e: Emu, d: Desc): Emu {
    var b := ProgramTarget(e, d);
    var c := RegWrite(b, GpuCmd, 1);
    RegWrite(c, GpuClearValue, d.arg0)
  }

  function ProgramDraw(e: Emu, d: Desc): Emu {
    var b := ProgramTarget(e, d);
    var c := RegWrite(b, GpuCmd, 2);
    var f := RegWrite(c, GpuVertex0, d.src0);
    var g := RegWrite(f, GpuVertex1, d.src1);
    RegWrite(g, GpuVertex2, d.src2)
  }

  function ProgramRegisters(e: Emu, d: Desc): Emu {
    if d.opcode == 1 then ProgramNpu(e, d)
    else if d.opcode == 2 then ProgramClear(e, d)
    else ProgramDraw(e, d)
  }

  predicate RunsEngine(d: Desc) {
    d.opcode == 1 || d.opcode == 2 || d.opcode == 3
  }

  /** The start bit of CONTROL for the engine the descriptor names. */
  function StartBit(d: Desc): word {
    if d.opcode == 1 then 1 else 2
  }

  lemma ConfigWord(seqLength: half, model: byte)
    ensures var v := seqLength * 0x1_0000 + model; v % 256 == model && v / 0x1_0000 == seqLength && v < W32
  {
    DivModUnique(seqLength * 0x1_0000 + model, 0x1_0000, seqLength, model);
    DivModUnique(seqLength * 0x1_0000 + model, 256, seqLength * 256, model);
  }

  lemma BufferWrites(e: Emu, v: word)
    ensures RegWrite(e, UmemNpuInput, v) == e.(umem := e.umem.(npuInput := v))
    ensures RegWrite(e, UmemNpuWeight, v) == e.(umem := e.umem.(npuWeight := v))
    ensures RegWrite(e, UmemNpuOutput, v) == e.(umem := e.umem.(npuOutput := v))
  {
    hide WriteFits, RunNpu, RunClear, RunDraw, Process, AfterNpuStart, WithQueue, Rings;
  }

  lemma TargetWrites(e: Emu, v: word)
    ensures RegWrite(e, UmemCtrl, v) == e.(umem := e.umem.(ctrl := v))
    ensures RegWrite(e, UmemGpuFb, v) == e.(umem := e.umem.(gpuFb := v))
  {
    hide WriteFits, RunNpu, RunClear, RunDraw, Process, AfterNpuStart, WithQueue, Rings;
  }

  lemma CommandWrites(e: Emu, v: word)
    ensures RegWrite(e, NpuCfg0, v) == e.(npu := e.npu.(modelId := v % 256, seqLength := v / 0x1_0000))
    ensures RegWrite(e, GpuCmd, v) == e.(gpu := e.gpu.(opcode := v % 256))
    ensures RegWrite(e, GpuClearValue, v) == e.(gpu := e.gpu.(clearValue := v % 256))
  {
    hide WriteFits, RunNpu, RunClear, RunDraw, Process, AfterNpuStart, WithQueue, Rings;
  }

  lemma VertexWrites(e: Emu, v: word)
    ensures RegWrite(e, GpuVertex0, v) == e.(gpu := e.gpu.(vertex0 := v % 0x1_0000))
    ensures RegWrite(e, GpuVertex1, v) == e.(gpu := e.gpu.(vertex1 := v % 0x1_0000))
    ensures RegWrite(e, GpuVertex2, v) == e.(gpu := e.gpu.(vertex2 := v % 0x1_0000))
  {
    hide WriteFits, RunNpu, RunClear, RunDraw, Process, AfterNpuStart, WithQueue, Rings;
  }

  lemma ProgrammedNpu(e: Emu, d: Desc)
    requires d.opcode == OP_NPU_INFER
    ensures ProgramNpu(e, d) == Override(e, d)
  {
    hide RegWrite, OrWord;
    var o := Override(e, d);
    var a := RegWrite(e, UmemCtrl, o.umem.ctrl);
    var b := RegWrite(a, UmemNpuInput, d.src0);
    var c := RegWrite(b, UmemNpuWeight, d.src1);
    var f := RegWrite(c, UmemNpuOutput, d.dst0);
    TargetWrites(e, o.umem.ctrl);
    BufferWrites(a, d.src0);
    BufferWrites(b, d.src1);
    BufferWrites(c, d.dst0);
    ConfigWord(o.npu.seqLength, o.npu.modelId);
    CommandWrites(f, o.npu.seqLength * 0x1_0000 + o.npu.modelId);
  }

  lemma ProgrammedTarget(e: Emu, d: Desc)
    ensures ProgramTarget(e, d) == e.(umem := GpuTarget(e.umem, d))
  {
    hide RegWrite, OrWord;
    var ctrl := OrWord(e.umem.ctrl, 1 + 4);
    TargetWrites(e, ctrl);
    TargetWrites(RegWrite(e, UmemCtrl, ctrl), d.dst0);
  }

  lemma ProgrammedClear(e: Emu, d: Desc)
    requires d.opcode == OP_GPU_CLEAR
    ensures ProgramClear(e, d) == Override(e, d)
  {
    hide RegWrite, OrWord, GpuTarget, ProgramTarget;
    var b := e.(umem := GpuTarget(e.umem, d));
    ProgrammedTarget(e, d);
    CommandWrites(b, GPU_CMD_CLEAR);
    CommandWrites(RegWrite(b, GpuCmd, GPU_CMD_CLEAR), d.arg0);
  }

  lemma ProgrammedDraw(e: Emu, d: Desc)
    requires d.opcode == OP_GPU_DRAW_TRI
    ensures ProgramDraw(e, d) == Override(e, d)
  {
    hide RegWrite, OrWord, GpuTarget, ProgramTarget;
    var b := e.(umem := GpuTarget(e.umem, d));
    ProgrammedTarget(e, d);
    var c := RegWrite(b, GpuCmd, GPU_CMD_DRAW_TRI);
    var f := RegWrite(c, GpuVertex0, d.src0);
    var g := RegWrite(f, GpuVertex1, d.src1);
    CommandWrites(b, GPU_CMD_DRAW_TRI);
    VertexWrites(c, d.src0);
    VertexWrites(f, d.src1);
    VertexWrites(g, d.src2);
  }

  lemma StartRunsEngine(o: Emu, d: Desc)
    requires RunsEngine(d)
    requires d.opcode == OP_NPU_INFER ==> NpuFits(o.npu, o.umem, o.mem)
    requires d.opcode == OP_GPU_CLEAR ==> FbFits(o.umem, o.mem) && o.gpu.opcode == GPU_CMD_CLEAR
    requires d.opcode == OP_GPU_DRAW_TRI ==> FbFits(o.umem, o.mem) && o.gpu.opcode == GPU_CMD_DRAW_TRI
    ensures WriteFits(o, Control, StartBit(d))
    ensures RegWrite(o, Control, StartBit(d)) == RunEngine(o.(shell := o.shell.(control := StartBit(d))), d)
  {
    hide NpuFits, FbFits, OrWord, RunNpu, RunClear, RunDraw, Process, DrainFits, WithQueue, Rings;
  }

  lemma StartFits(e: Emu, d: Desc)
    requires RunsEngine(d) && DescFits(e, d)
    ensures WriteFits(ProgramRegisters(e, d), Control, StartBit(d))
    ensures RegWrite(ProgramRegisters(e, d), Control, StartBit(d))
         == RunEngine(Override(e, d).(shell := e.shell.(control := StartBit(d))), d)
  {
    hide NpuFits, FbFits, OrWord, ProgramNpu, ProgramClear, ProgramDraw, WriteFits, RegWrite, RunEngine;
    if d.opcode == OP_NPU_INFER { ProgrammedNpu(e, d); }
    else if d.opcode == OP_GPU_CLEAR { ProgrammedClear(e, d); }
    else { ProgrammedDraw(e, d); }
    StartRunsEngine(Override(e, d), d);
  }

  /** Programming the registers and then starting the engine through CONTROL. */
  function MmioRun(e: Emu, d: Desc): Emu
    requires RunsEngine(d) && DescFits(e, d)
  {
    StartFits(e, d);
    RegWrite(ProgramRegisters(e, d), Control, StartBit(d))
  }

  /** The outcome a program can observe, apart from the registers a descriptor overrides
      for its own run: operands and results of both engines and the framebuffer. */
  ghost predicate SameResults(a: Emu, b: Emu) {
    && a.fb == b.fb
    && a.npu == b.npu.(modelId := a.npu.modelId, seqLength := a.npu.seqLength)
    && a.gpu == b.gpu.(opcode := a.gpu.opcode, vertex0 := a.gpu.vertex0, vertex1 := a.gpu.vertex1,
                       vertex2 := a.gpu.vertex2, clearValue := a.gpu.clearValue)
  }

  lemma RunEngineIgnoresControl(o: Emu, d: Desc, v: Shell)
    requires d.opcode == OP_NPU_INFER ==> NpuFits(o.npu, o.umem, o.mem)
    requires d.opcode == OP_GPU_CLEAR || d.opcode == OP_GPU_DRAW_TRI ==> FbFits(o.umem, o.mem)
    ensures RunEngine(o.(shell := v), d) == RunEngine(o, d).(shell := v)
  {
    hide NpuFits, FbFits, Infer, LoadOperands, SyncFb, WriteWords, Raster.PaintGrid, Raster.Triangle.Area2, Bbox;
  }

  lemma RestoredResults(r: Emu, e: Emu)
    ensures SameResults(Restore(r, e), r) && Restore(r, e).mem == r.mem
  {
  }

  // ------------------------------------------------------------------ what a descriptor leaves alone

  /** Registers no engine run changes. */
  ghost predicate SameSettings(a: Emu, b: Emu) {
    && a.umem == b.umem && a.shell == b.shell && a.cmdq == b.cmdq && |a.mem| == |b.mem|
    && a.npu.modelId == b.npu.modelId && a.npu.seqLength == b.npu.seqLength
    && a.gpu.opcode == b.gpu.opcode && a.gpu.vertex0 == b.gpu.vertex0 && a.gpu.vertex1 == b.gpu.vertex1
    && a.gpu.vertex2 == b.gpu.vertex2 && a.gpu.clearValue == b.gpu.clearValue
  }

  lemma InferKeeps(n: Npu)
    ensures Infer(n).modelId == n.modelId && Infer(n).seqLength == n.seqLength
  {
    hide Dot4, AsInt32;
  }

  lemma NpuKeeps(e: Emu)
    requires NpuFits(e.npu, e.umem, e.mem)
    ensures SameSettings(RunNpu(e), e)
  {
    InferKeeps(LoadOperands(e.npu.(busy := true), e.umem, e.mem));
    hide Infer, WriteWords;
  }

  lemma GpuKeeps(e: Emu)
    requires FbFits(e.umem, e.mem)
    ensures SameSettings(RunClear(e), e) && SameSettings(RunDraw(e), e)
  {
    hide Raster.PaintGrid, Bbox, Raster.Triangle.Area2;
  }

  lemma EngineKeeps(o: Emu, d: Desc)
    requires d.opcode == OP_NPU_INFER ==> NpuFits(o.npu, o.umem, o.mem)
    requires d.opcode == OP_GPU_CLEAR || d.opcode == OP_GPU_DRAW_TRI ==> FbFits(o.umem, o.mem)
    ensures SameSettings(RunEngine(o, d), o)
  {
    hide RunNpu, RunClear, RunDraw, NpuFits, FbFits;
    if d.opcode == OP_NPU_INFER { NpuKeeps(o); }
    if d.opcode == OP_GPU_CLEAR || d.opcode == OP_GPU_DRAW_TRI { GpuKeeps(o); }
  }

  /** A descriptor has the effect of programming its registers and writing CONTROL,
      except that it also marks itself done in memory. */
  lemma DescriptorMatchesMmio(e: Emu, off: nat)
    requires off + 32 <= |e.mem| && DescFits(e, ReadDesc(e.mem, off)) && RunsEngine(ReadDesc(e.mem, off))
    ensures var d, x := ReadDesc(e.mem, off), Execute(e, off);
      var m := MmioRun(e, d);
      && SameResults(x, m)
      && off + 32 <= |m.mem| && x.mem == Write32(m.mem, off + 4, DoneFlags(d))
  {
    hide ReadDesc, RunNpu, RunClear, RunDraw, ProgramRegisters, WriteFits, RegWrite, Account,
         NpuFits, FbFits, OrWord, Override;
    var d := ReadDesc(e.mem, off);
    StartFits(e, d);
    var o := Override(e, d);
    RunEngineIgnoresControl(o, d, e.shell.(control := StartBit(d)));
    RestoredResults(RunEngine(o, d), e);
    EngineKeeps(o, d);
    OverrideMem(e, d);
  }

  lemma OverrideMem(e: Emu, d: Desc)
    ensures Override(e, d).mem == e.mem && Override(e, d).fb == e.fb && Override(e, d).cmdq == e.cmdq
  {
  }

  /** The twelve saved registers end unchanged, and so does every other setting; of the
      queue only the dispatch bookkeeping moves. */
  lemma SavedRegistersRestored(e: Emu, off: nat)
    requires off + 32 <= |e.mem| && DescFits(e, ReadDesc(e.mem, off))
    ensures SameSettings(Execute(e, off).(cmdq := e.cmdq), e)
  {
    hide ReadDesc, NpuFits, FbFits, OrWord, RunNpu, RunClear, RunDraw, Account;
    var d := ReadDesc(e.mem, off);
    EngineKeeps(Override(e, d), d);
  }
}
