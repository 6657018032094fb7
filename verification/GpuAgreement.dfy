/** The clocked GPU and the C emulator draw the same pixels. */
module GpuAgreement {
  import opened Raster
  import GpuLite
  import EmuSpec
  import EmuReports

  /** The command the emulator's registers describe, as presented to the clocked module. */
  function DrawInputs(g: EmuSpec.Gpu): GpuLite.Inputs {
    GpuLite.Inputs(true, true, GpuLite.CMD_DRAW_TRI, g.vertex0, g.vertex1, g.vertex2, g.clearValue)
  }

  lemma SameTriangle(g: EmuSpec.Gpu)
    ensures DrawInputs(g).Tri() == EmuSpec.TriangleOf(g)
  {
  }

  /** Starting from the same framebuffer and the same vertices, the scan of the clamped
      box (which clamps the lower corner too) and the emulator's loops (which do not)
      end with the same 32 rows and the same pixel count. */
  lemma DrawsAgree(e: EmuSpec.Emu, s: GpuLite.Gpu, inputs: seq<GpuLite.Inputs>)
    requires EmuSpec.FbFits(e.umem, e.mem)
    requires !s.busy && s.fb == e.fb
    requires GpuLite.NoReset(inputs) && |inputs| == GpuLite.BoxSize(DrawInputs(e.gpu).Tri())
    ensures var c, v := EmuSpec.RunDraw(e), GpuLite.Run(s, [DrawInputs(e.gpu)] + inputs);
      && !v.busy && v.frameDone && c.gpu.done && !c.gpu.busy
      && v.fb == c.fb && v.pixels == c.gpu.pixels && v.area2 == c.gpu.area2
  {
    var i := DrawInputs(e.gpu);
    SameTriangle(e.gpu);
    hide GpuLite.Unpack, EmuSpec.UnpackVertex, Triangle.Area2, Triangle.Cover, Triangle.MinX, Triangle.MaxX;
    hide Triangle.MinY, Triangle.MaxY, PaintGrid, GpuLite.Run, GpuLite.BoxSize, EmuSpec.Bbox, EmuSpec.SyncFb;
    GpuLite.DrawCommand(s, i, inputs);
    GpuLite.CoverSize(i.Tri());
    GpuLite.DrawReports(s, i, inputs);
    EmuReports.AreaReports(i.Tri());
  }

  lemma ClearsAgree(e: EmuSpec.Emu, s: GpuLite.Gpu, inputs: seq<GpuLite.Inputs>)
    requires EmuSpec.FbFits(e.umem, e.mem)
    requires !s.busy && GpuLite.NoReset(inputs) && |inputs| == 32
    ensures var i := DrawInputs(e.gpu).(opcode := GpuLite.CMD_CLEAR);
      GpuLite.Run(s, [i] + inputs).fb == EmuSpec.RunClear(e).fb
  {
    var i := DrawInputs(e.gpu).(opcode := GpuLite.CMD_CLEAR);
    GpuLite.ClearCommand(s, i, inputs);
  }

  /** On a blank framebuffer both leave exactly the rows the reference model returns. */
  lemma DrawMatchesReference(e: EmuSpec.Emu, rows: Frame)
    requires EmuSpec.FbFits(e.umem, e.mem) && e.fb == BlankFrame()
    requires Painted(BlankFrame(), rows, EmuSpec.TriangleOf(e.gpu).Cover())
    ensures EmuSpec.RunDraw(e).fb == rows
  {
    var t := EmuSpec.TriangleOf(e.gpu);
    PaintGridPaints(e.fb, t);
    PaintedUnique(e.fb, rows, PaintGrid(e.fb, t), t.Cover());
  }
}
