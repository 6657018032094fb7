/** The clocked GPU: one command at a time, one pixel (or one cleared row) a cycle. */
module GpuLite {
  import opened Bits
  import opened Raster

  const CMD_CLEAR: byte := 0x01
  const CMD_DRAW_TRI: byte := 0x02

  /** A five-bit register. */
  type coord = n: nat | n < 32

  datatype Mode = Idle | Clear | Draw

  /** The ports sampled at a clock edge; vertices arrive as y in the high byte, x in the low. */
  datatype Inputs = Inputs(
    resetn: bool, valid: bool, opcode: byte,
    vertex0: nat, vertex1: nat, vertex2: nat, clearValue: byte)
  {
    function Tri(): Triangle {
      Triangle(Unpack(vertex0), Unpack(vertex1), Unpack(vertex2))
    }
  }

  function Unpack(v: nat): Point {
    Point(v % 256, v / 256 % 256)
  }

  datatype Gpu = Gpu(
    busy: bool, frameDone: bool, triangles: word, frames: word, pixels: word,
    area2: int, bbox: nat, mode: Mode, clearRow: coord, clearFill: bool,
    scanX: coord, scanY: coord, minX: coord, maxX: coord, minY: coord, maxY: coord,
    tri: Triangle, fb: Frame)

  const ZERO_POINT := Point(0, 0)

  function Reset(): Gpu {
    Gpu(false, false, 0, 0, 0, 0, 0, Idle, 0, false, 0, 0, 0, 0, 0, 0,
        Triangle(ZERO_POINT, ZERO_POINT, ZERO_POINT), BlankFrame())
  }

  function Clamp(v: int): coord
    requires v >= 0
  {
    if v > 31 then 31 else v
  }

  function Increment(w: word): word { (w + 1) % W32 }

  function FillRow(fill: bool): nat { if fill then 0xFFFF_FFFF else 0 }

  function Next(s: Gpu, i: Inputs): Gpu
  {
    if !i.resetn then Reset()
    else
      var quiet := s.(frameDone := false);
      if !s.busy && i.valid then Accept(quiet, i)
      else if s.busy then Work(quiet)
      else quiet
  }

  function Accept(s: Gpu, i: Inputs): Gpu {
    if i.opcode == CMD_CLEAR then StartClear(s, i.clearValue % 2 == 1)
    else if i.opcode == CMD_DRAW_TRI then StartDraw(s, i.Tri())
    else s
  }

  function StartClear(s: Gpu, fill: bool): Gpu {
    s.(busy := true, mode := Clear, clearRow := 0, clearFill := fill, pixels := 0, area2 := 0, bbox := 0)
  }

  function StartDraw(s: Gpu, t: Triangle): Gpu
    requires t.Bytes()
  {
    Aim(Latch(s, t, t.Area2()), Clamp(t.MinX()), Clamp(t.MaxX()), Clamp(t.MinY()), Clamp(t.MaxY()))
  }

  function Latch(s: Gpu, t: Triangle, area: int): Gpu {
    s.(busy := true, mode := Draw, tri := t, pixels := 0, area2 := area)
  }

  /** Four five-bit coordinates side by side. */
  function PackBox(lx: coord, hx: coord, ly: coord, hy: coord): nat {
    hy * 0x8000 + hx * 0x400 + ly * 0x20 + lx
  }

  function Aim(s: Gpu, lx: coord, hx: coord, ly: coord, hy: coord): Gpu {
    s.(minX := lx, maxX := hx, minY := ly, maxY := hy, scanX := lx, scanY := ly, bbox := PackBox(lx, hx, ly, hy))
  }

  function Work(s: Gpu): Gpu
  {
    match s.mode
    case Clear =>
      var c := s.(fb := s.fb[s.clearRow := FillRow(s.clearFill)]);
      if s.clearRow == 31 then
        c.(busy := false, mode := Idle, frameDone := true, frames := Increment(s.frames))
      else c.(clearRow := s.clearRow + 1)
    case Draw => Advance(Plot(s))
    case Idle => s.(busy := false, mode := Idle)
  }

  predicate DrawInside(s: Gpu) {
    TestsInside(s.tri, s.area2, Point(s.scanX, s.scanY))
  }

  predicate TestsInside(t: Triangle, area2: int, p: Point) {
    var e0, e1, e2 := Edge(t.v0, t.v1, p), Edge(t.v1, t.v2, p), Edge(t.v2, t.v0, p);
    if area2 > 0 then e0 >= 0 && e1 >= 0 && e2 >= 0
    else if area2 < 0 then e0 <= 0 && e1 <= 0 && e2 <= 0
    else false
  }

  function Plot(s: Gpu): Gpu
  {
    if DrawInside(s) then s.(fb := SetPixel(s.fb, s.scanX, s.scanY), pixels := Increment(s.pixels)) else s
  }

  function Advance(s: Gpu): Gpu
  {
    if s.scanX != s.maxX then s.(scanX := (s.scanX + 1) % 32)
    else if s.scanY != s.maxY then s.(scanX := s.minX, scanY := (s.scanY + 1) % 32)
    else s.(busy := false, mode := Idle, frameDone := true, frames := Increment(s.frames),
            triangles := Increment(s.triangles))
  }

  // ------------------------------------------------------------------ the clocked module

  datatype Counts = Counts(triangles: word, frames: word, pixels: word)

  /** The clamped bounding box, and the word it is read back in. */
  datatype Box = Box(minX: coord, maxX: coord, minY: coord, maxY: coord, packed: nat)

  class GpuModule {
    var busy: bool
    var frameDone: bool
    var counts: Counts
    var area2: int
    var mode: Mode
    var clearRow: coord
    var clearFill: bool
    var scanX: coord
    var scanY: coord
    var box: Box
    var tri: Triangle
    const framebuffer: array<nat>

    ghost predicate Valid()
      reads this
    {
      framebuffer.Length == 32
    }

    ghost function State(): Gpu
      reads this, framebuffer
      requires framebuffer.Length == 32
    {
      Gpu(busy, frameDone, counts.triangles, counts.frames, counts.pixels, area2, box.packed, mode, clearRow, clearFill,
          scanX, scanY, box.minX, box.maxX, box.minY, box.maxY, tri, framebuffer[..])
    }

    /** Power-up: the module is held in reset before its first useful cycle. */
    constructor ()
      ensures Valid() && State() == Reset() && fresh(framebuffer)
    {
      framebuffer := new nat[32](_ => 0);
      busy, frameDone, counts, area2 := false, false, Counts(0, 0, 0), 0;
      mode, clearRow, clearFill := Idle, 0, false;
      scanX, scanY, box := 0, 0, Box(0, 0, 0, 0, 0);
      tri := Triangle(ZERO_POINT, ZERO_POINT, ZERO_POINT);
      new;
      assert framebuffer[..] == Reset().fb;
    }

    method Clock(i: Inputs)
      requires Valid()
      modifies this, framebuffer
      ensures Valid()
      ensures State() == Next(old(State()), i)
    {
      frameDone := false;
      if !i.resetn {
        ClearRegisters();
      } else if !busy && i.valid {
        AcceptCommand(i);
      } else if busy {
        match mode {
          case Clear => ClearOneRow();
          case Draw => DrawOnePixel();
          case Idle => busy := false;
        }
      }
    }

    method ClearRegisters()
      requires Valid()
      modifies this, framebuffer
      ensures Valid() && State() == Reset()
    {
      BlankRows();
      busy, frameDone, counts, area2 := false, false, Counts(0, 0, 0), 0;
      mode, clearRow, clearFill := Idle, 0, false;
      scanX, scanY, box, tri := 0, 0, Box(0, 0, 0, 0, 0), Triangle(ZERO_POINT, ZERO_POINT, ZERO_POINT);
    }

    method BlankRows()
      requires Valid()
      modifies framebuffer
      ensures framebuffer[..] == BlankFrame()
    {
      forall row | 0 <= row < 32 {
        framebuffer[row] := 0;
      }
      assert framebuffer[..] == BlankFrame();
    }

    method AcceptCommand(i: Inputs)
      requires Valid()
      modifies this
      ensures Valid() && State() == Accept(old(State()), i)
    {
      if i.opcode == CMD_CLEAR {
        BeginClear(i.clearValue % 2 == 1);
      } else if i.opcode == CMD_DRAW_TRI {
        var t := i.Tri();
        LatchTriangle(t);
        AimScan(Clamp(t.MinX()), Clamp(t.MaxX()), Clamp(t.MinY()), Clamp(t.MaxY()));
      }
    }

    method BeginClear(fill: bool)
      requires Valid()
      modifies this
      ensures Valid() && State() == StartClear(old(State()), fill)
    {
      busy, mode, clearRow, clearFill := true, Clear, 0, fill;
      counts, area2, box := counts.(pixels := 0), 0, box.(packed := 0);
    }

    method LatchTriangle(t: Triangle)
      requires Valid()
      modifies this
      ensures Valid() && State() == Latch(old(State()), t, t.Area2())
    {
      busy, mode, tri := true, Draw, t;
      counts, area2 := counts.(pixels := 0), t.Area2();
    }

    method AimScan(lx: coord, hx: coord, ly: coord, hy: coord)
      requires Valid()
      modifies this
      ensures Valid() && State() == Aim(old(State()), lx, hx, ly, hy)
    {
      scanX, scanY, box := lx, ly, Box(lx, hx, ly, hy, PackBox(lx, hx, ly, hy));
    }

    method ClearOneRow()
      requires Valid() && mode == Clear
      modifies this, framebuffer
      ensures Valid() && State() == Work(old(State()))
    {
      framebuffer[clearRow] := FillRow(clearFill);
      if clearRow == 31 {
        busy, mode, frameDone := false, Idle, true;
        counts := counts.(frames := Increment(counts.frames));
      } else {
        clearRow := clearRow + 1;
      }
    }

    method DrawOnePixel()
      requires Valid() && mode == Draw
      modifies this, framebuffer
      ensures Valid() && State() == Work(old(State()))
    {
      PlotPixel();
      AdvanceScan();
    }

    method PlotPixel()
      requires Valid()
      modifies this, framebuffer
      ensures Valid() && State() == Plot(old(State()))
    {
      var p := Point(scanX, scanY);
      var e0, e1, e2 := Edge(tri.v0, tri.v1, p), Edge(tri.v1, tri.v2, p), Edge(tri.v2, tri.v0, p);
      if (area2 > 0 && e0 >= 0 && e1 >= 0 && e2 >= 0) || (area2 < 0 && e0 <= 0 && e1 <= 0 && e2 <= 0) {
        framebuffer[scanY] := Or(framebuffer[scanY], Pow2(scanX));
        counts := counts.(pixels := Increment(counts.pixels));
      }
    }

    method AdvanceScan()
      requires Valid() && mode == Draw
      modifies this
      ensures Valid() && State() == Advance(old(State()))
    {
      if scanX == box.maxX {
        if scanY == box.maxY {
          busy, mode, frameDone := false, Idle, true;
          counts := counts.(frames := Increment(counts.frames), triangles := Increment(counts.triangles));
        } else {
          scanX, scanY := box.minX, (scanY + 1) % 32;
        }
      } else {
        scanX := (scanX + 1) % 32;
      }
    }
  }

  // ------------------------------------------------------------------ runs

  function Run(s: Gpu, inputs: seq<Inputs>): Gpu
    decreases |inputs|
  {
    if inputs == [] then s else Run(Next(s, inputs[0]), inputs[1..])
  }

  ghost predicate NoReset(inputs: seq<Inputs>) {
    forall k | 0 <= k < |inputs| :: inputs[k].resetn
  }

  /** Cycles taken by `h` full rows of width `w`. */
  function Rows(h: int, w: int): int
    decreases h
  {
    if h <= 0 then 0 else w + Rows(h - 1, w)
  }

  lemma {:induction false} RowsIsArea(h: nat, w: int)
    ensures Rows(h, w) == h * w
  {
    if h == 0 {
    } else {
      RowsIsArea(h - 1, w);
    }
  }

  /** Cycles a draw still needs, the current one included. */
  function Remaining(s: Gpu): int {
    Rows(s.maxY - s.scanY, s.maxX - s.minX + 1) + (s.maxX - s.scanX) + 1
  }

  /** `cover` is what the inside test of the latched triangle accepts on the grid,
      and it lies in the latched box. */
  ghost predicate Decides(s: Gpu, cover: set<Point>) {
    && (forall x: coord, y: coord :: TestsInside(s.tri, s.area2, Point(x, y)) == (Point(x, y) in cover))
    && (forall p | p in cover :: s.minX <= p.x <= s.maxX && s.minY <= p.y <= s.maxY)
    && |cover| < W32
  }

  /** The covered pixels scanned before (x, y) are painted over `before` and counted. */
  ghost predicate PaintedTo(s: Gpu, cover: set<Point>, before: Frame, x: int, y: int) {
    && Painted(before, s.fb, Scanned(cover, x, y))
    && s.pixels == |Scanned(cover, x, y)|
  }

  /** What holds while the pixels of `cover` are drawn over `before`. */
  ghost predicate Drawing(s: Gpu, cover: set<Point>, before: Frame) {
    && s.busy && s.mode == Draw && Decides(s, cover)
    && s.minX <= s.scanX <= s.maxX && s.minY <= s.scanY <= s.maxY
    && PaintedTo(s, cover, before, s.scanX, s.scanY)
  }

  lemma ScannedWithin(cover: set<Point>, x: int, y: int)
    ensures |Scanned(cover, x, y)| <= |cover|
  {
    SubsetSize(Scanned(cover, x, y), cover);
  }

  lemma {:induction false} SubsetSize<T>(a: set<T>, b: set<T>)
    requires a <= b
    ensures |a| <= |b|
  {
    if a == {} {
    } else {
      var x :| x in a;
      SubsetSize(a - {x}, b - {x});
    }
  }

  lemma {:induction false} GridSize(c: set<Point>, n: nat)
    requires forall p | p in c :: 0 <= p.x < 32 && 0 <= p.y < n
    ensures |c| <= 32 * n
  {
    if n == 0 {
      assert c == {};
    } else {
      var row := set p | p in c && p.y == n - 1;
      assert c == (c - row) + row;
      GridSize(c - row, n - 1);
      RowSize(row, n - 1, 32);
    }
  }

  lemma {:induction false} RowSize(row: set<Point>, y: int, n: nat)
    requires forall p | p in row :: 0 <= p.x < n && p.y == y
    ensures |row| <= n
  {
    if n == 0 {
      assert row == {};
    } else {
      RowSize(row - {Point(n - 1, y)}, y, n - 1);
    }
  }

  lemma CoverSize(t: Triangle)
    ensures |t.Cover()| <= 1024
  {
    GridSize(t.Cover(), 32);
  }

  lemma ClampedBox(t: Triangle)
    requires t.Bytes()
    ensures forall p | p in t.Cover() ::
      && Clamp(t.MinX()) <= p.x <= Clamp(t.MaxX()) && Clamp(t.MinY()) <= p.y <= Clamp(t.MaxY())
    ensures Clamp(t.MinX()) <= Clamp(t.MaxX()) && Clamp(t.MinY()) <= Clamp(t.MaxY())
  {
    CoverInBox(t);
  }

  lemma TestIsInside(t: Triangle, p: Point)
    ensures TestsInside(t, t.Area2(), p) == t.Inside(p)
  {
  }

  /** An accepted draw command starts a scan that has not painted anything yet. */
  lemma DrawStarts(s: Gpu, t: Triangle)
    requires t.Bytes()
    ensures Drawing(StartDraw(s, t), t.Cover(), s.fb)
    ensures StartDraw(s, t).frames == s.frames && StartDraw(s, t).triangles == s.triangles
  {
    hide Edge, Triangle.Area2, Triangle.MinX, Triangle.MaxX, Triangle.MinY, Triangle.MaxY;
    var r := StartDraw(s, t);
    ClampedBox(t);
    CoverSize(t);
    forall x: coord, y: coord ensures TestsInside(r.tri, r.area2, Point(x, y)) == (Point(x, y) in t.Cover()) {
      TestIsInside(t, Point(x, y));
    }
    ScanStart(t.Cover(), r.minX, r.minY);
    ScanEmpty(s.fb);
  }

  lemma {:induction false} RowsNonnegative(h: int, w: int)
    requires w >= 0
    ensures Rows(h, w) >= 0
    decreases h
  {
    if h <= 0 {
    } else {
      RowsNonnegative(h - 1, w);
    }
  }

  lemma RemainingStep(s: Gpu)
    requires s.minX <= s.scanX <= s.maxX && s.scanY <= s.maxY
    ensures Remaining(s) >= 1
    ensures Remaining(s) == 1 <==> s.scanX == s.maxX && s.scanY == s.maxY
    ensures Remaining(s) > 1 ==> Remaining(Advance(s)) == Remaining(s) - 1
  {
    RowsNonnegative(s.maxY - s.scanY, s.maxX - s.minX + 1);
    RowsNonnegative(s.maxY - s.scanY - 1, s.maxX - s.minX + 1);
  }

  lemma PlotPaints(s: Gpu, cover: set<Point>, before: Frame)
    requires Drawing(s, cover, before)
    ensures PaintedTo(Plot(s), cover, before, s.scanX + 1, s.scanY)
  {
    hide TestsInside, Painted, Scanned, SetPixel;
    ScanPaint(before, s.fb, cover, s.scanX, s.scanY);
    ScanStep(cover, s.scanX, s.scanY);
    ScannedWithin(cover, s.scanX + 1, s.scanY);
    assert DrawInside(s) == TestsInside(s.tri, s.area2, Point(s.scanX, s.scanY));
  }

  /** Stepping to the next pixel, or row, leaves nothing covered behind. */
  lemma AdvanceScans(s: Gpu, cover: set<Point>)
    requires Decides(s, cover) && s.minX <= s.scanX <= s.maxX && s.minY <= s.scanY <= s.maxY
    ensures var r := Advance(s);
      if s.scanX == s.maxX && s.scanY == s.maxY then Scanned(cover, s.scanX + 1, s.scanY) == cover
      else Scanned(cover, r.scanX, r.scanY) == Scanned(cover, s.scanX + 1, s.scanY)
  {
    hide TestsInside;
    if s.scanX == s.maxX {
      ScanNewRow(cover, s.minX, s.maxX, s.scanY);
      if s.scanY == s.maxY {
        ScanDone(cover, s.minX, s.maxY + 1);
      }
    }
  }

  /** `r` is `s` some `n` busy cycles later, with the draw still going on. */
  ghost predicate InProgress(s: Gpu, r: Gpu, cover: set<Point>, before: Frame, n: nat) {
    && Drawing(r, cover, before) && Remaining(r) == Remaining(s) - n && (n > 0 ==> !r.frameDone)
    && r.frames == s.frames && r.triangles == s.triangles
    && r.minX == s.minX && r.maxX == s.maxX && r.minY == s.minY && r.maxY == s.maxY
  }

  /** The draw under way in `s` has just completed in `r`. */
  ghost predicate Finished(s: Gpu, r: Gpu, cover: set<Point>, before: Frame) {
    && !r.busy && r.mode == Idle && r.frameDone
    && r.frames == Increment(s.frames) && r.triangles == Increment(s.triangles)
    && Painted(before, r.fb, cover) && r.pixels == |cover|
  }

  /** One busy cycle of a draw: it tests exactly the pixel it stands on and the
      remaining cycle count drops by one. */
  lemma DrawStep(s: Gpu, i: Inputs, cover: set<Point>, before: Frame)
    requires Drawing(s, cover, before) && i.resetn
    ensures Remaining(s) >= 1
    ensures Remaining(s) == 1 ==> Finished(s, Next(s, i), cover, before)
    ensures Remaining(s) > 1 ==> InProgress(s, Next(s, i), cover, before, 1)
  {
    hide TestsInside, DrawInside, Increment, SetPixel, Painted, Scanned, Rows;
    var q := s.(frameDone := false);
    assert Next(s, i) == Advance(Plot(q));
    PlotPaints(q, cover, before);
    RemainingStep(Plot(q));
    AdvanceScans(Plot(q), cover);
  }

  /** A whole draw: it takes exactly box-width times box-height busy cycles whatever
      commands arrive meanwhile, pulses frame_done once, at the end, and leaves the
      old framebuffer with every pixel of the full grid that passes the inside test
      switched on and counted. */
  lemma {:induction false} DrawRuns(s: Gpu, inputs: seq<Inputs>, cover: set<Point>, before: Frame)
    requires Drawing(s, cover, before) && NoReset(inputs) && |inputs| <= Remaining(s)
    ensures |inputs| == Remaining(s) ==> Finished(s, Run(s, inputs), cover, before)
    ensures |inputs| < Remaining(s) ==> InProgress(s, Run(s, inputs), cover, before, |inputs|)
    decreases |inputs|
  {
    hide TestsInside;
    if inputs == [] {
      RemainingStep(s);
    } else {
      DrawStep(s, inputs[0], cover, before);
      if Remaining(s) > 1 {
        DrawRuns(Next(s, inputs[0]), inputs[1..], cover, before);
      } else {
        assert inputs[1..] == [];
      }
    }
  }

  /** Width times height of the clamped bounding box. */
  function BoxSize(t: Triangle): int
    requires t.Bytes()
  {
    (Clamp(t.MaxX()) - Clamp(t.MinX()) + 1) * (Clamp(t.MaxY()) - Clamp(t.MinY()) + 1)
  }

  lemma StartRemaining(s: Gpu, t: Triangle)
    requires t.Bytes()
    ensures Remaining(StartDraw(s, t)) == BoxSize(t)
  {
    hide Edge, Triangle.Area2, Triangle.MinX, Triangle.MaxX, Triangle.MinY, Triangle.MaxY;
    ClampedBox(t);
    var u := StartDraw(s, t);
    var w, h := u.maxX - u.minX + 1, u.maxY - u.minY;
    RowsIsArea(h, w);
    BoxArea(w, h);
  }

  lemma BoxArea(w: int, h: int)
    ensures h * w + w == w * (h + 1)
  {
  }

  /** From the command to the finished frame: the framebuffer is the one the unclipped
      test of all 1024 pixels paints. */
  lemma DrawCommand(s: Gpu, i: Inputs, inputs: seq<Inputs>)
    requires !s.busy && i.resetn && i.valid && i.opcode == CMD_DRAW_TRI
    requires NoReset(inputs) && |inputs| == BoxSize(i.Tri())
    ensures var r := Run(s, [i] + inputs);
      && !r.busy && r.frameDone && r.frames == Increment(s.frames) && r.triangles == Increment(s.triangles)
      && r.fb == PaintGrid(s.fb, i.Tri()) && r.pixels == |i.Tri().Cover()|
  {
    hide TestsInside, BoxSize, StartDraw, PaintGrid, Triangle.Inside, Triangle.Area2;
    var t, q := i.Tri(), s.(frameDone := false);
    var u := StartDraw(q, t);
    DrawStarts(q, t);
    StartRemaining(q, t);
    assert ([i] + inputs)[1..] == inputs;
    assert Run(s, [i] + inputs) == Run(u, inputs);
    DrawRuns(u, inputs, t.Cover(), s.fb);
    PaintGridPaints(s.fb, t);
    PaintedUnique(s.fb, Run(u, inputs).fb, PaintGrid(s.fb, t), t.Cover());
  }

  /** The area and the packed box of the command stay as they were latched. */
  lemma {:induction false} ReportStays(s: Gpu, inputs: seq<Inputs>, cover: set<Point>, before: Frame)
    requires Drawing(s, cover, before) && NoReset(inputs) && |inputs| <= Remaining(s)
    ensures Run(s, inputs).area2 == s.area2 && Run(s, inputs).bbox == s.bbox
    decreases |inputs|
  {
    hide Drawing, Remaining, Next;
    if inputs == [] {
    } else {
      DrawStep(s, inputs[0], cover, before);
      WorkKeepsReport(s, inputs[0], cover, before);
      if |inputs| > 1 {
        ReportStays(Next(s, inputs[0]), inputs[1..], cover, before);
      } else {
        assert inputs[1..] == [];
      }
    }
  }

  lemma WorkKeepsReport(s: Gpu, i: Inputs, cover: set<Point>, before: Frame)
    requires Drawing(s, cover, before) && i.resetn
    ensures Next(s, i).area2 == s.area2 && Next(s, i).bbox == s.bbox
  {
    hide DrawInside, SetPixel, Decides, PaintedTo;
  }

  /** A command accepted, then the cycles that follow it. */
  lemma RunAccepted(s: Gpu, i: Inputs, inputs: seq<Inputs>)
    requires !s.busy && i.resetn && i.valid && i.opcode == CMD_DRAW_TRI
    ensures Run(s, [i] + inputs) == Run(StartDraw(s.(frameDone := false), i.Tri()), inputs)
  {
    hide StartDraw;
    assert ([i] + inputs)[1..] == inputs;
  }

  /** What is read back after a draw: twice the signed area, and the box in four five-bit fields,
      from the low end: least x, least y, greatest x, greatest y, each at most 31. */
  lemma DrawReports(s: Gpu, i: Inputs, inputs: seq<Inputs>)
    requires !s.busy && i.resetn && i.valid && i.opcode == CMD_DRAW_TRI
    requires NoReset(inputs) && |inputs| == BoxSize(i.Tri())
    ensures var r, t := Run(s, [i] + inputs), i.Tri();
      && r.area2 == (t.v1.x - t.v0.x) * (t.v2.y - t.v0.y) - (t.v1.y - t.v0.y) * (t.v2.x - t.v0.x)
      && r.bbox % 32 == Min(t.MinX(), 31) && r.bbox / 32 % 32 == Min(t.MinY(), 31)
      && r.bbox / 1024 % 32 == Min(t.MaxX(), 31) && r.bbox / 32768 == Min(t.MaxY(), 31)
  {
    hide Run, StartDraw, BoxSize, Drawing, Remaining, Triangle.Cover;
    hide Triangle.MinX, Triangle.MaxX, Triangle.MinY, Triangle.MaxY;
    var t, q := i.Tri(), s.(frameDone := false);
    var u := StartDraw(q, t);
    RunAccepted(s, i, inputs);
    DrawStarts(q, t);
    StartRemaining(q, t);
    StartReports(q, t);
    ReportStays(u, inputs, t.Cover(), q.fb);
  }

  lemma StartReports(s: Gpu, t: Triangle)
    requires t.Bytes()
    ensures var u := StartDraw(s, t);
      && u.area2 == (t.v1.x - t.v0.x) * (t.v2.y - t.v0.y) - (t.v1.y - t.v0.y) * (t.v2.x - t.v0.x)
      && u.bbox % 32 == Min(t.MinX(), 31) && u.bbox / 32 % 32 == Min(t.MinY(), 31)
      && u.bbox / 1024 % 32 == Min(t.MaxX(), 31) && u.bbox / 32768 == Min(t.MaxY(), 31)
  {
    FiveBitFields(Clamp(t.MinX()), Clamp(t.MaxX()), Clamp(t.MinY()), Clamp(t.MaxY()));
    hide PackBox, Triangle.MinX, Triangle.MaxX, Triangle.MinY, Triangle.MaxY;
  }

  lemma FiveBitFields(lx: coord, hx: coord, ly: coord, hy: coord)
    ensures var b := PackBox(lx, hx, ly, hy);
      b % 32 == lx && b / 32 % 32 == ly && b / 1024 % 32 == hx && b / 32768 == hy
  {
    var b := PackBox(lx, hx, ly, hy);
    DivModUnique(b, 32, hy * 1024 + hx * 32 + ly, lx);
    DivModUnique(hy * 1024 + hx * 32 + ly, 32, hy * 32 + hx, ly);
    DivModUnique(b, 1024, hy * 32 + hx, ly * 32 + lx);
    DivModUnique(hy * 32 + hx, 32, hy, hx);
    DivModUnique(b, 32768, hy, hx * 1024 + ly * 32 + lx);
  }

  lemma ScanOffset(s: Gpu, inputs: seq<Inputs>, t: Triangle)
    requires t.Bytes() && NoReset(inputs) && |inputs| < BoxSize(t)
    ensures var u := StartDraw(s, t);
      var r, w := Run(u, inputs), u.maxX - u.minX + 1;
      && r.busy && u.minX <= r.scanX <= u.maxX
      && u.minY <= r.scanY
      && |inputs| == (r.scanY - u.minY) * w + (r.scanX - u.minX)
  {
    hide TestsInside, BoxSize, StartDraw, Triangle.Inside, Triangle.Area2, Painted, Increment, Rows, Run;
    DrawStarts(s, t);
    StartRemaining(s, t);
    StartsAtCorner(s, t);
    var u := StartDraw(s, t);
    DrawRuns(u, inputs, t.Cover(), s.fb);
    var r := Run(u, inputs);
    ElapsedCells(u.minY, r.scanY, u.maxY, u.minX, r.scanX, u.maxX, |inputs|);
  }

  lemma ElapsedCells(top: int, y: int, bottom: int, left: int, x: int, right: int, k: int)
    requires top <= y <= bottom
    requires Rows(bottom - top, right - left + 1) + (right - left)
          == k + Rows(bottom - y, right - left + 1) + (right - x)
    ensures k == (y - top) * (right - left + 1) + (x - left)
  {
    hide Rows;
    RowsElapsed(bottom - top, bottom - y, right - left + 1);
    assert bottom - top - (bottom - y) == y - top;
  }

  /** The pixel tested in busy cycle k of a draw: the box in row-major order, so each
      of its pixels exactly once. */
  lemma ScanPosition(s: Gpu, inputs: seq<Inputs>, t: Triangle)
    requires t.Bytes() && NoReset(inputs) && |inputs| < BoxSize(t)
    ensures var u := StartDraw(s, t);
      var r, w := Run(u, inputs), u.maxX - u.minX + 1;
      && r.busy && w > 0
      && r.scanX == u.minX + |inputs| % w && r.scanY == u.minY + |inputs| / w
  {
    ScanOffset(s, inputs, t);
    hide Run, StartDraw, BoxSize;
    var u := StartDraw(s, t);
    var r := Run(u, inputs);
    DivModUnique(|inputs|, u.maxX - u.minX + 1, r.scanY - u.minY, r.scanX - u.minX);
  }

  /** Every pixel of the box is tested in exactly one busy cycle of the draw. */
  lemma EachPixelOnce(s: Gpu, inputs: seq<Inputs>, t: Triangle, p: Point) returns (k: nat)
    requires t.Bytes() && NoReset(inputs) && |inputs| == BoxSize(t)
    requires Clamp(t.MinX()) <= p.x <= Clamp(t.MaxX()) && Clamp(t.MinY()) <= p.y <= Clamp(t.MaxY())
    ensures k < |inputs|
    ensures forall j: nat | j < |inputs| :: ScansAt(Run(StartDraw(s, t), inputs[..j]), p) <==> j == k
  {
    var u := StartDraw(s, t);
    BoxIs(s, t);
    var w, h := u.maxX - u.minX + 1, u.maxY - u.minY + 1;
    k := Cell(p.y - u.minY, p.x - u.minX, w);
    CellInside(p.y - u.minY, p.x - u.minX, w, h);
    forall j: nat | j < |inputs| ensures ScansAt(Run(u, inputs[..j]), p) <==> j == k {
      hide Run, StartDraw, BoxSize, Cell;
      ScanOffset(s, inputs[..j], t);
      var r := Run(u, inputs[..j]);
      SameCell(r.scanY - u.minY, r.scanX - u.minX, p.y - u.minY, p.x - u.minX, w);
    }
  }

  predicate ScansAt(s: Gpu, p: Point) { s.scanX == p.x && s.scanY == p.y }

  function Cell(row: nat, column: nat, w: nat): nat { row * w + column }

  lemma BoxIs(s: Gpu, t: Triangle)
    requires t.Bytes()
    ensures var u := StartDraw(s, t);
      && u.minX == Clamp(t.MinX()) && u.maxX == Clamp(t.MaxX())
      && u.minY == Clamp(t.MinY()) && u.maxY == Clamp(t.MaxY())
      && BoxSize(t) == (u.maxX - u.minX + 1) * (u.maxY - u.minY + 1)
  {
    hide Triangle.MinX, Triangle.MaxX, Triangle.MinY, Triangle.MaxY, Triangle.Area2, PackBox;
  }

  lemma CellInside(row: nat, column: nat, w: nat, h: nat)
    requires row < h && column < w
    ensures Cell(row, column, w) < w * h
  {
    MulMonotone(row, h - 1, w);
  }

  lemma SameCell(a: nat, b: nat, c: nat, d: nat, w: nat)
    requires b < w && d < w
    ensures Cell(a, b, w) == Cell(c, d, w) <==> a == c && b == d
  {
    if Cell(a, b, w) == Cell(c, d, w) {
      DivModUnique(Cell(a, b, w), w, a, b);
      DivModUnique(Cell(a, b, w), w, c, d);
    }
  }

  lemma RowsElapsed(h: nat, left: nat, w: int)
    requires left <= h
    ensures Rows(h, w) - Rows(left, w) == (h - left) * w
  {
    RowsIsArea(h, w);
    RowsIsArea(left, w);
    RowsBetween(h, left, w);
  }

  lemma StartsAtCorner(s: Gpu, t: Triangle)
    requires t.Bytes()
    ensures var u := StartDraw(s, t); u.scanX == u.minX && u.scanY == u.minY
  {
  }

  lemma RowsBetween(a: int, b: int, w: int)
    ensures a * w - b * w == (a - b) * w
  {
  }

  // ------------------------------------------------------------------ clear

  ghost predicate Clearing(s: Gpu, fill: bool, before: Frame) {
    && s.busy && s.mode == Clear && s.clearFill == fill
    && forall y | 0 <= y < 32 :: s.fb[y] == if y < s.clearRow then FillRow(fill) else before[y]
  }

  lemma {:induction false} ClearRuns(s: Gpu, inputs: seq<Inputs>, fill: bool, before: Frame)
    requires Clearing(s, fill, before) && NoReset(inputs) && |inputs| <= 32 - s.clearRow
    ensures var r := Run(s, inputs);
      if |inputs| == 32 - s.clearRow then
        !r.busy && r.frameDone && r.frames == Increment(s.frames) && r.fb == seq(32, _ => FillRow(fill))
      else Clearing(r, fill, before) && r.clearRow == s.clearRow + |inputs| && (inputs != [] ==> !r.frameDone)
    decreases |inputs|
  {
    if inputs == [] {
    } else {
      var n := Next(s, inputs[0]);
      if s.clearRow == 31 {
        assert n.fb == seq(32, _ => FillRow(fill));
      } else {
        ClearRuns(n, inputs[1..], fill, before);
        assert |inputs| > 1 ==> inputs[1..] != [];
      }
    }
  }

  /** A clear takes exactly 32 busy cycles and leaves every row equal to the fill. */
  lemma ClearCommand(s: Gpu, i: Inputs, inputs: seq<Inputs>)
    requires !s.busy && i.resetn && i.valid && i.opcode == CMD_CLEAR
    requires NoReset(inputs) && |inputs| == 32
    ensures var r := Run(s, [i] + inputs);
      && !r.busy && r.frameDone && r.frames == Increment(s.frames)
      && r.fb == seq(32, _ => FillRow(i.clearValue % 2 == 1))
    ensures forall k | 0 <= k < 32 :: var r := Run(s, [i] + inputs[..k]); r.busy && !r.frameDone
  {
    var fill := i.clearValue % 2 == 1;
    assert ([i] + inputs)[1..] == inputs;
    ClearRuns(Next(s, i), inputs, fill, s.fb);
    forall k | 0 <= k < 32 ensures var r := Run(s, [i] + inputs[..k]); r.busy && !r.frameDone {
      assert ([i] + inputs[..k])[1..] == inputs[..k];
      ClearRuns(Next(s, i), inputs[..k], fill, s.fb);
    }
  }

  /** A clear reports an empty draw and counts as a frame but not as a triangle. */
  lemma {:induction false} ClearReports(s: Gpu, inputs: seq<Inputs>)
    requires s.busy && s.mode == Clear && NoReset(inputs) && |inputs| <= 32 - s.clearRow
    ensures var r := Run(s, inputs);
      r.pixels == s.pixels && r.area2 == s.area2 && r.bbox == s.bbox && r.triangles == s.triangles
    decreases |inputs|
  {
    if inputs == [] {
    } else if s.clearRow == 31 {
      assert inputs[1..] == [];
    } else {
      ClearReports(Next(s, inputs[0]), inputs[1..]);
    }
  }

  lemma ClearReportsEmpty(s: Gpu, i: Inputs, inputs: seq<Inputs>)
    requires !s.busy && i.resetn && i.valid && i.opcode == CMD_CLEAR
    requires NoReset(inputs) && |inputs| == 32
    ensures var r := Run(s, [i] + inputs);
      r.pixels == 0 && r.area2 == 0 && r.bbox == 0 && r.triangles == s.triangles
  {
    assert ([i] + inputs)[1..] == inputs;
    ClearReports(Next(s, i), inputs);
  }

  // ------------------------------------------------------------------ whole histories

  /** What one completed command makes of a framebuffer. */
  function Applied(f: Frame, i: Inputs): Frame {
    if i.opcode == CMD_CLEAR then seq(32, _ => FillRow(i.clearValue % 2 == 1)) else PaintGrid(f, i.Tri())
  }

  /** The commands applied in order to a blank framebuffer. */
  function AppliedAll(commands: seq<Inputs>): Frame {
    if commands == [] then BlankFrame()
    else Applied(AppliedAll(commands[..|commands| - 1]), commands[|commands| - 1])
  }

  /** Since the last reset: the commands accepted, and the cycles with frame_done up. */
  datatype Ledger = Ledger(accepted: seq<Inputs>, pulses: nat)

  predicate Accepts(s: Gpu, i: Inputs) {
    !s.busy && i.valid && (i.opcode == CMD_CLEAR || i.opcode == CMD_DRAW_TRI)
  }

  function Entered(s: Gpu, i: Inputs, led: Ledger): Ledger {
    if !i.resetn then Ledger([], 0)
    else Ledger(led.accepted + (if Accepts(s, i) then [i] else []), led.pulses + if Next(s, i).frameDone then 1 else 0)
  }

  function History(s: Gpu, inputs: seq<Inputs>, led: Ledger): Ledger
    decreases |inputs|
  {
    if inputs == [] then led else History(Next(s, inputs[0]), inputs[1..], Entered(s, inputs[0], led))
  }

  /** Between commands the framebuffer is all of them applied; during the last one, it is
      the others applied and the last one partly. */
  ghost predicate Accounted(s: Gpu, led: Ledger) {
    var n := |led.accepted|;
    && s.frames == led.pulses % W32
    && if !s.busy then led.pulses == n && s.fb == AppliedAll(led.accepted)
       else
         && n > 0 && led.pulses == n - 1
         && var last, before := led.accepted[n - 1], AppliedAll(led.accepted[..n - 1]);
            if last.opcode == CMD_CLEAR then Clearing(s, last.clearValue % 2 == 1, before)
            else last.opcode == CMD_DRAW_TRI && Drawing(s, last.Tri().Cover(), before)
  }

  lemma DrawCompletes(s: Gpu, r: Gpu, t: Triangle, before: Frame)
    requires Finished(s, r, t.Cover(), before)
    ensures r.fb == PaintGrid(before, t)
  {
    PaintGridPaints(before, t);
    PaintedUnique(before, r.fb, PaintGrid(before, t), t.Cover());
  }

  lemma AcceptAccounted(s: Gpu, i: Inputs, led: Ledger)
    requires Accounted(s, led) && i.resetn && Accepts(s, i)
    ensures Accounted(Next(s, i), Entered(s, i, led))
  {
    hide TestsInside, Triangle.Area2, PaintGrid, Triangle.Inside, Triangle.Cover, Aim, Latch;
    var all := led.accepted + [i];
    assert all[..|all| - 1] == led.accepted;
    if i.opcode == CMD_DRAW_TRI {
      DrawStarts(s.(frameDone := false), i.Tri());
      DrawStartsBusy(s.(frameDone := false), i.Tri());
    }
  }

  lemma DrawStartsBusy(s: Gpu, t: Triangle)
    requires t.Bytes()
    ensures StartDraw(s, t).busy && StartDraw(s, t).frameDone == s.frameDone
  {
    hide Triangle.Area2, PackBox;
  }

  lemma WorkAccounted(s: Gpu, i: Inputs, led: Ledger)
    requires Accounted(s, led) && i.resetn && s.busy
    ensures Accounted(Next(s, i), Entered(s, i, led))
  {
    hide TestsInside, PaintGrid, Triangle.Cover, Plot, Advance, Remaining, Painted;
    var n := |led.accepted|;
    var last, before := led.accepted[n - 1], AppliedAll(led.accepted[..n - 1]);
    assert led.accepted + [] == led.accepted;
    CountPulse(led.pulses);
    if last.opcode == CMD_CLEAR {
      if s.clearRow == 31 {
        assert Next(s, i).fb == seq(32, _ => FillRow(last.clearValue % 2 == 1));
      }
    } else {
      DrawStep(s, i, last.Tri().Cover(), before);
      if Remaining(s) == 1 { DrawCompletes(s, Next(s, i), last.Tri(), before); }
    }
  }

  lemma CountPulse(n: nat)
    ensures Increment(n % W32) == (n + 1) % W32
  {
  }

  lemma StepAccounted(s: Gpu, i: Inputs, led: Ledger)
    requires Accounted(s, led)
    ensures Accounted(Next(s, i), Entered(s, i, led))
  {
    hide Accept, Work, Clearing, Drawing;
    if i.resetn && Accepts(s, i) {
      AcceptAccounted(s, i, led);
    } else if i.resetn && s.busy {
      WorkAccounted(s, i, led);
    } else if i.resetn {
      assert led.accepted + [] == led.accepted;
      IgnoredCommand(s, i);
    }
  }

  lemma IgnoredCommand(s: Gpu, i: Inputs)
    requires i.resetn && !s.busy && !Accepts(s, i)
    ensures Next(s, i) == s.(frameDone := false)
  {
  }

  lemma {:induction false} RunAccounted(s: Gpu, inputs: seq<Inputs>, led: Ledger)
    requires Accounted(s, led)
    ensures Accounted(Run(s, inputs), History(s, inputs, led))
    decreases |inputs|
  {
    hide Next, Entered, Accounted;
    if inputs == [] {
    } else {
      StepAccounted(s, inputs[0], led);
      RunAccounted(Next(s, inputs[0]), inputs[1..], Entered(s, inputs[0], led));
    }
  }

  /** From reset, over every sequence of inputs: an idle module shows all commands accepted
      since the last reset applied in order, and frame_done was up for exactly one cycle for
      each command completed. */
  lemma CommandsApplied(inputs: seq<Inputs>)
    ensures var s, led := Run(Reset(), inputs), History(Reset(), inputs, Ledger([], 0));
      && (!s.busy ==> s.fb == AppliedAll(led.accepted))
      && led.pulses + (if s.busy then 1 else 0) == |led.accepted|
      && s.frames == led.pulses % W32
  {
    RunAccounted(Reset(), inputs, Ledger([], 0));
  }
}
