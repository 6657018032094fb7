/** Triangle coverage, shared by the three rasterizers.  The inside test is the
    one all three sources spell out; the lemmas say what it means. */
module Raster {
  import opened Bits

  datatype Point = Point(x: int, y: int)

  const FB_SIZE: nat := 32

  function Edge(a: Point, b: Point, p: Point): int {
    (b.x - a.x) * (p.y - a.y) - (b.y - a.y) * (p.x - a.x)
  }

  datatype Triangle = Triangle(v0: Point, v1: Point, v2: Point) {

    function Area2(): int {
      Edge(v0, v1, v2)
    }

    predicate Inside(p: Point) {
      var e0, e1, e2 := Edge(v0, v1, p), Edge(v1, v2, p), Edge(v2, v0, p);
      if Area2() > 0 then e0 >= 0 && e1 >= 0 && e2 >= 0
      else if Area2() < 0 then e0 <= 0 && e1 <= 0 && e2 <= 0
      else false
    }

    function MinX(): int { Min(v0.x, Min(v1.x, v2.x)) }
    function MaxX(): int { Max(v0.x, Max(v1.x, v2.x)) }
    function MinY(): int { Min(v0.y, Min(v1.y, v2.y)) }
    function MaxY(): int { Max(v0.y, Max(v1.y, v2.y)) }

    predicate Bytes() {
      && 0 <= v0.x < 256 && 0 <= v1.x < 256 && 0 <= v2.x < 256
      && 0 <= v0.y < 256 && 0 <= v1.y < 256 && 0 <= v2.y < 256
    }

    /** The pixels of the whole grid that pass the inside test; no bounding box. */
    function Cover(): set<Point> {
      set x, y | 0 <= x < FB_SIZE && 0 <= y < FB_SIZE && Inside(Point(x, y)) :: Point(x, y)
    }
  }

  function Min(a: int, b: int): int { if a < b then a else b }

  function Max(a: int, b: int): int { if a > b then a else b }

  // ------------------------------------------------------------------ coverage algebra

  /** The three edge values are barycentric weights of p. */
  lemma Barycentric(t: Triangle, p: Point)
    ensures Edge(t.v0, t.v1, p) + Edge(t.v1, t.v2, p) + Edge(t.v2, t.v0, p) == t.Area2()
    ensures Edge(t.v1, t.v2, p) * t.v0.x + Edge(t.v2, t.v0, p) * t.v1.x + Edge(t.v0, t.v1, p) * t.v2.x
         == t.Area2() * p.x
    ensures Edge(t.v1, t.v2, p) * t.v0.y + Edge(t.v2, t.v0, p) * t.v1.y + Edge(t.v0, t.v1, p) * t.v2.y
         == t.Area2() * p.y
  {
  }

  lemma Distribute(w0: int, w1: int, w2: int, k: int)
    ensures w0 * k + w1 * k + w2 * k == (w0 + w1 + w2) * k
  {
  }

  lemma Deviation(w: int, a: int, m: int)
    ensures w * (a - m) == w * a - w * m
  {
  }

  /** Deviations of the same sign cannot cancel. */
  lemma SameSign(w: int, d: int)
    requires w >= 0
    ensures d >= 1 ==> w * d >= w
    ensures d <= -1 ==> w * d <= -w
  {
    if d >= 1 { MulMonotone(1, d, w); }
    if d <= -1 { MulMonotone(d, -1, w); }
  }

  /** A weighted mean lies between the bounds of its terms. */
  lemma MeanBounds(w0: int, w1: int, w2: int, a0: int, a1: int, a2: int, lo: int, hi: int, m: int)
    requires w0 >= 0 && w1 >= 0 && w2 >= 0 && w0 + w1 + w2 > 0
    requires lo <= a0 <= hi && lo <= a1 <= hi && lo <= a2 <= hi
    requires w0 * a0 + w1 * a1 + w2 * a2 == (w0 + w1 + w2) * m
    ensures lo <= m <= hi
  {
    Distribute(w0, w1, w2, m);
    Deviation(w0, a0, m); Deviation(w1, a1, m); Deviation(w2, a2, m);
    SameSign(w0, a0 - m); SameSign(w1, a1 - m); SameSign(w2, a2 - m);
  }

  lemma NegateMean(w0: int, w1: int, w2: int, a0: int, a1: int, a2: int, w: int, m: int)
    requires w0 * a0 + w1 * a1 + w2 * a2 == w * m
    ensures (-w0) * a0 + (-w1) * a1 + (-w2) * a2 == (-w) * m
  {
  }

  /** The barycentric weights of a covered point, with the sign of the area removed. */
  function UnitWeights(t: Triangle, p: Point): (int, int, int) {
    var w0, w1, w2 := Edge(t.v1, t.v2, p), Edge(t.v2, t.v0, p), Edge(t.v0, t.v1, p);
    if t.Area2() > 0 then (w0, w1, w2) else (-w0, -w1, -w2)
  }

  lemma UnitWeightsMean(t: Triangle, p: Point)
    requires t.Inside(p)
    ensures var (w0, w1, w2) := UnitWeights(t, p);
      && w0 >= 0 && w1 >= 0 && w2 >= 0 && w0 + w1 + w2 > 0
      && w0 * t.v0.x + w1 * t.v1.x + w2 * t.v2.x == (w0 + w1 + w2) * p.x
      && w0 * t.v0.y + w1 * t.v1.y + w2 * t.v2.y == (w0 + w1 + w2) * p.y
  {
    Barycentric(t, p);
    hide Edge, Triangle.Area2;
    var w0, w1, w2 := Edge(t.v1, t.v2, p), Edge(t.v2, t.v0, p), Edge(t.v0, t.v1, p);
    NegateMean(w0, w1, w2, t.v0.x, t.v1.x, t.v2.x, t.Area2(), p.x);
    NegateMean(w0, w1, w2, t.v0.y, t.v1.y, t.v2.y, t.Area2(), p.y);
  }

  /** A covered point lies in the bounding box of the vertices, so clipping the
      scan to that box loses nothing. */
  lemma InsideInBox(t: Triangle, p: Point)
    requires t.Inside(p)
    ensures t.MinX() <= p.x <= t.MaxX() && t.MinY() <= p.y <= t.MaxY()
  {
    UnitWeightsMean(t, p);
    hide UnitWeights, Triangle.Inside;
    var (w0, w1, w2) := UnitWeights(t, p);
    MeanBounds(w0, w1, w2, t.v0.x, t.v1.x, t.v2.x, t.MinX(), t.MaxX(), p.x);
    MeanBounds(w0, w1, w2, t.v0.y, t.v1.y, t.v2.y, t.MinY(), t.MaxY(), p.y);
  }

  ghost predicate Weights(t: Triangle, p: Point, w0: nat, w1: nat, w2: nat) {
    && w0 + w1 + w2 > 0
    && w0 * t.v0.x + w1 * t.v1.x + w2 * t.v2.x == (w0 + w1 + w2) * p.x
    && w0 * t.v0.y + w1 * t.v1.y + w2 * t.v2.y == (w0 + w1 + w2) * p.y
  }

  lemma CrossTerm(u: int, w: int, p: int, a: int)
    ensures u * (w * p - w * a) == w * (u * (p - a))
  {
  }

  lemma CrossMean(u: int, w1: int, w2: int, d1: int, d2: int)
    ensures u * (w1 * d1 + w2 * d2) == w1 * (u * d1) + w2 * (u * d2)
  {
  }

  lemma Offset(w0: int, w1: int, w2: int, a: int, b: int, c: int, m: int)
    requires w0 * a + w1 * b + w2 * c == (w0 + w1 + w2) * m
    ensures (w0 + w1 + w2) * m - (w0 + w1 + w2) * a == w1 * (b - a) + w2 * (c - a)
  {
    Distribute(w0, w1, w2, a);
  }

  /** A weighted mean of the vertices satisfies every edge inequality. */
  lemma EdgeOfMean(t: Triangle, p: Point, w0: nat, w1: nat, w2: nat)
    requires Weights(t, p, w0, w1, w2)
    ensures (w0 + w1 + w2) * Edge(t.v0, t.v1, p) == w2 * t.Area2()
  {
    var w := w0 + w1 + w2;
    var a, b, c := t.v0, t.v1, t.v2;
    var ux, uy, cx, cy := b.x - a.x, b.y - a.y, c.x - a.x, c.y - a.y;
    Offset(w0, w1, w2, a.x, b.x, c.x, p.x);
    Offset(w0, w1, w2, a.y, b.y, c.y, p.y);
    CrossTerm(ux, w, p.y, a.y);
    CrossTerm(uy, w, p.x, a.x);
    CrossMean(ux, w1, w2, uy, cy);
    CrossMean(uy, w1, w2, ux, cx);
    Cancel(w, ux * (p.y - a.y), uy * (p.x - a.x), w1, ux * uy, w2, ux * cy, uy * cx);
  }

  lemma Cancel(w: int, k: int, l: int, w1: int, s: int, w2: int, g: int, h: int)
    requires w * k == w1 * s + w2 * g && w * l == w1 * s + w2 * h
    ensures w * (k - l) == w2 * (g - h)
  {
  }

  lemma SignOfProduct(w: int, e: int, k: int, a: int)
    requires w > 0 && k >= 0 && w * e == k * a
    ensures a > 0 ==> e >= 0
    ensures a < 0 ==> e <= 0
  {
    if a > 0 && e < 0 { MulMonotone(e, -1, w); MulMonotone(0, a, k); }
    if a < 0 && e > 0 { MulMonotone(1, e, w); MulMonotone(a, 0, k); }
  }

  lemma RotatedArea(t: Triangle)
    ensures Edge(t.v1, t.v2, t.v0) == t.Area2() && Edge(t.v2, t.v0, t.v1) == t.Area2()
    ensures Edge(t.v1, t.v0, t.v2) == -t.Area2()
  {
  }

  lemma InsideHasWeights(t: Triangle, p: Point)
    requires t.Inside(p)
    ensures exists w0: nat, w1: nat, w2: nat :: Weights(t, p, w0, w1, w2)
  {
    UnitWeightsMean(t, p);
    hide UnitWeights, Triangle.Inside;
    var (w0, w1, w2) := UnitWeights(t, p);
    assert Weights(t, p, w0, w1, w2);
  }

  lemma WeightsAreInside(t: Triangle, p: Point, w0: nat, w1: nat, w2: nat)
    requires t.Area2() != 0 && Weights(t, p, w0, w1, w2)
    ensures t.Inside(p)
  {
    RotatedArea(t);
    var w := w0 + w1 + w2;
    EdgeOfMean(t, p, w0, w1, w2);
    SignOfProduct(w, Edge(t.v0, t.v1, p), w2, t.Area2());
    EdgeOfMean(Triangle(t.v1, t.v2, t.v0), p, w1, w2, w0);
    SignOfProduct(w, Edge(t.v1, t.v2, p), w0, t.Area2());
    EdgeOfMean(Triangle(t.v2, t.v0, t.v1), p, w2, w0, w1);
    SignOfProduct(w, Edge(t.v2, t.v0, p), w1, t.Area2());
  }

  /** The inside test is membership in the closed triangle: p passes it exactly when
      the triangle is not degenerate and p is a weighted mean of its vertices. */
  lemma InsideIsConvexHull(t: Triangle, p: Point)
    ensures t.Inside(p) <==> t.Area2() != 0 && exists w0: nat, w1: nat, w2: nat :: Weights(t, p, w0, w1, w2)
  {
    if t.Inside(p) {
      InsideHasWeights(t, p);
    }
    if w0: nat, w1: nat, w2: nat :| t.Area2() != 0 && Weights(t, p, w0, w1, w2) {
      WeightsAreInside(t, p, w0, w1, w2);
    }
  }

  /** Coverage does not depend on the order of the vertices (these two moves
      generate all six orders), and a degenerate triangle covers nothing. */
  lemma CoverInvariance(t: Triangle)
    ensures Triangle(t.v1, t.v2, t.v0).Cover() == t.Cover()
    ensures Triangle(t.v1, t.v0, t.v2).Cover() == t.Cover()
    ensures t.Area2() == 0 ==> t.Cover() == {}
  {
    RotatedArea(t);
    forall p: Point
      ensures Triangle(t.v1, t.v2, t.v0).Inside(p) == t.Inside(p)
      ensures Triangle(t.v1, t.v0, t.v2).Inside(p) == t.Inside(p)
    {
      SwappedEdge(t.v0, t.v1, p);
      SwappedEdge(t.v1, t.v2, p);
      SwappedEdge(t.v2, t.v0, p);
    }
  }

  lemma SixOrders(t: Triangle)
    ensures Triangle(t.v0, t.v2, t.v1).Cover() == t.Cover() && Triangle(t.v1, t.v0, t.v2).Cover() == t.Cover()
    ensures Triangle(t.v1, t.v2, t.v0).Cover() == t.Cover() && Triangle(t.v2, t.v0, t.v1).Cover() == t.Cover()
    ensures Triangle(t.v2, t.v1, t.v0).Cover() == t.Cover()
  {
    hide Triangle.Cover;
    CoverInvariance(t);
    CoverInvariance(Triangle(t.v1, t.v2, t.v0));
    CoverInvariance(Triangle(t.v2, t.v0, t.v1));
  }

  lemma SwappedEdge(a: Point, b: Point, p: Point)
    ensures Edge(b, a, p) == -Edge(a, b, p)
  {
  }

  lemma Term(c: int, x: int, m: int)
    requires 0 <= x <= m
    ensures Min(c, 0) * m <= c * x <= Max(c, 0) * m
  {
    if c >= 0 { MulMonotone(0, x, c); MulMonotone(x, m, c); }
    else { MulMonotone(0, x, -c); MulMonotone(x, m, -c); }
  }

  lemma PartBound(p0: int, p1: int, p2: int, m: int)
    requires -m <= p0 + p1 + p2 <= m
    ensures -(m * m) <= p0 * m + p1 * m + p2 * m <= m * m
  {
    Distribute(p0, p1, p2, m);
    MulMonotone(p0 + p1 + p2, m, m);
    MulMonotone(-m, p0 + p1 + p2, m);
  }

  lemma ConvexSum(c0: int, c1: int, c2: int, x0: int, x1: int, x2: int, m: int)
    requires c0 + c1 + c2 == 0
    requires -m <= c0 <= m && -m <= c1 <= m && -m <= c2 <= m
    requires 0 <= x0 <= m && 0 <= x1 <= m && 0 <= x2 <= m
    ensures -(m * m) <= c0 * x0 + c1 * x1 + c2 * x2 <= m * m
  {
    Term(c0, x0, m); Term(c1, x1, m); Term(c2, x2, m);
    PartBound(Max(c0, 0), Max(c1, 0), Max(c2, 0), m);
    PartBound(Min(c0, 0), Min(c1, 0), Min(c2, 0), m);
  }

  lemma ProductRange(x: int, y: int)
    requires -255 <= x <= 255 && -255 <= y <= 255
    ensures -(255 * 255) <= x * y <= 255 * 255
  {
    if x >= 0 {
      Scaled(y, x);
    } else {
      Scaled(y, -x);
      assert x * y == -(-x * y);
    }
  }

  lemma Scaled(y: int, d: int)
    requires 0 <= d <= 255 && -255 <= y <= 255
    ensures -(255 * 255) <= d * y <= 255 * 255
  {
    MulMonotone(-255, y, d);
    MulMonotone(y, 255, d);
  }

  /** Every edge value of points with byte coordinates fits in 18 bits, and so does every
      intermediate value: neither the C int32_t arithmetic nor the 32-bit Verilog arithmetic
      overflows. */
  lemma EdgeRange(a: Point, b: Point, p: Point)
    requires 0 <= a.x <= 255 && 0 <= a.y <= 255 && 0 <= b.x <= 255
    requires 0 <= b.y <= 255 && 0 <= p.x <= 255 && 0 <= p.y <= 255
    ensures -255 <= b.x - a.x <= 255 && -255 <= b.y - a.y <= 255 && -255 <= p.x - a.x <= 255 && -255 <= p.y - a.y <= 255
    ensures -(255 * 255) <= (b.x - a.x) * (p.y - a.y) <= 255 * 255
    ensures -(255 * 255) <= (b.y - a.y) * (p.x - a.x) <= 255 * 255
    ensures -(255 * 255) <= Edge(a, b, p) <= 255 * 255
  {
    ProductRange(b.x - a.x, p.y - a.y);
    ProductRange(b.y - a.y, p.x - a.x);
    ConvexSum(b.y - p.y, p.y - a.y, a.y - b.y, a.x, b.x, p.x, 255);
    calc {
      -Edge(a, b, p);
      (b.y - a.y) * (p.x - a.x) - (b.x - a.x) * (p.y - a.y);
      (b.y - a.y) * p.x - (b.y - a.y) * a.x - b.x * (p.y - a.y) + a.x * (p.y - a.y);
      -((b.y - p.y) * a.x + (p.y - a.y) * b.x + (a.y - b.y) * p.x);
    }
  }

  // ------------------------------------------------------------------ painted framebuffers

  type Frame = f: seq<nat> | |f| == 32 witness seq(32, _ => 0)

  function BlankFrame(): Frame {
    seq(32, _ => 0)
  }

  /** `after` is `before` with exactly the pixels of `s` switched on.  Bits at and
      above column 32 are compared too. */
  ghost predicate Painted(before: Frame, after: Frame, s: set<Point>) {
    forall y: nat, x: nat | y < 32 :: Bit(after[y], x) == (Bit(before[y], x) || Point(x, y) in s)
  }

  /** Painting determines the framebuffer word for word. */
  lemma PaintedUnique(before: Frame, after: Frame, after': Frame, s: set<Point>)
    requires Painted(before, after, s) && Painted(before, after', s)
    ensures after == after'
  {
    forall y | 0 <= y < 32 ensures after[y] == after'[y] {
      forall x: nat ensures Bit(after[y], x) == Bit(after'[y], x) {
      }
      SameBits(after[y], after'[y]);
    }
  }

  function SetPixel(f: Frame, x: nat, y: nat): Frame
    requires y < 32
  {
    f[y := Or(f[y], Pow2(x))]
  }

  lemma PaintPixel(before: Frame, f: Frame, s: set<Point>, x: nat, y: nat)
    requires y < 32 && Painted(before, f, s)
    ensures Painted(before, SetPixel(f, x, y), s + {Point(x, y)})
  {
    forall r: nat, c: nat | r < 32
      ensures Bit(SetPixel(f, x, y)[r], c) == (Bit(before[r], c) || Point(c, r) in s + {Point(x, y)})
    {
      OrBit(f[r], Pow2(x), c);
      Pow2Bit(x, c);
    }
  }

  /** The simple form: test every pixel of a row, with no bounding box. */
  function PaintRow(row: nat, t: Triangle, y: nat, n: nat): nat {
    if n == 0 then row
    else if t.Inside(Point(n - 1, y)) then Or(PaintRow(row, t, y, n - 1), Pow2(n - 1))
    else PaintRow(row, t, y, n - 1)
  }

  function PaintGrid(f: Frame, t: Triangle): Frame {
    seq(32, y requires 0 <= y < 32 => PaintRow(f[y], t, y, FB_SIZE))
  }

  lemma {:induction false} PaintRowBits(row: nat, t: Triangle, y: nat, n: nat, x: nat)
    ensures Bit(PaintRow(row, t, y, n), x) == (Bit(row, x) || (x < n && t.Inside(Point(x, y))))
  {
    if n == 0 {
    } else {
      PaintRowBits(row, t, y, n - 1, x);
      OrBit(PaintRow(row, t, y, n - 1), Pow2(n - 1), x);
      Pow2Bit(n - 1, x);
    }
  }

  lemma PaintGridPaints(f: Frame, t: Triangle)
    ensures Painted(f, PaintGrid(f, t), t.Cover())
  {
    forall y: nat, x: nat | y < 32
      ensures Bit(PaintGrid(f, t)[y], x) == (Bit(f[y], x) || Point(x, y) in t.Cover())
    {
      PaintRowBits(f[y], t, y, FB_SIZE, x);
    }
  }

  /** The covered pixels a row-major scan has passed when it stands at (x, y). */
  function Scanned(cover: set<Point>, x: int, y: int): set<Point> {
    set p | p in cover && (p.y < y || (p.y == y && p.x < x))
  }

  lemma ScanStep(cover: set<Point>, x: int, y: int)
    ensures Point(x, y) in cover ==> Scanned(cover, x + 1, y) == Scanned(cover, x, y) + {Point(x, y)}
    ensures Point(x, y) in cover ==> |Scanned(cover, x + 1, y)| == |Scanned(cover, x, y)| + 1
    ensures Point(x, y) !in cover ==> Scanned(cover, x + 1, y) == Scanned(cover, x, y)
  {
    var before, after := Scanned(cover, x, y), Scanned(cover, x + 1, y);
    forall p | p in after && p !in before ensures p == Point(x, y) {
    }
    if Point(x, y) in cover {
      assert after == before + {Point(x, y)};
      assert Point(x, y) !in before;
    } else {
      assert after == before;
    }
  }

  /** Painting the pixel the scan stands on keeps the scanned pixels painted. */
  lemma ScanPaint(before: Frame, f: Frame, cover: set<Point>, x: nat, y: nat)
    requires y < 32 && Painted(before, f, Scanned(cover, x, y))
    ensures Painted(before, if Point(x, y) in cover then SetPixel(f, x, y) else f, Scanned(cover, x + 1, y))
  {
    ScanStep(cover, x, y);
    if Point(x, y) in cover {
      PaintPixel(before, f, Scanned(cover, x, y), x, y);
    }
  }

  lemma ScanNewRow(cover: set<Point>, lo: int, hi: int, y: int)
    requires forall p | p in cover :: lo <= p.x <= hi
    ensures Scanned(cover, hi + 1, y) == Scanned(cover, lo, y + 1)
  {
  }

  lemma ScanStart(cover: set<Point>, lo: int, y: int)
    requires forall p | p in cover :: p.y >= y && p.x >= lo
    ensures Scanned(cover, lo, y) == {}
  {
  }

  lemma ScanDone(cover: set<Point>, lo: int, y: int)
    requires forall p | p in cover :: p.y < y
    ensures Scanned(cover, lo, y) == cover
  {
  }

  lemma ScanEmpty(before: Frame)
    ensures Painted(before, before, {})
  {
  }

  lemma CoverInBox(t: Triangle)
    ensures forall p | p in t.Cover() ::
      t.MinX() <= p.x <= t.MaxX() && t.MinY() <= p.y <= t.MaxY() && 0 <= p.x < 32 && 0 <= p.y < 32
  {
    forall p | p in t.Cover() ensures t.MinX() <= p.x <= t.MaxX() && t.MinY() <= p.y <= t.MaxY() {
      InsideInBox(t, p);
    }
  }

  // ------------------------------------------------------------------ the Python reference

  /** `rasterize` of the reference model: any integer vertices, including negative ones. */
  method Rasterize(t: Triangle) returns (minX: int, minY: int, maxX: int, maxY: int, area2: int, rows: Frame)
    ensures area2 == t.Area2()
    ensures minX == Max(0, t.MinX()) && maxX == Min(31, t.MaxX()) && minY == Max(0, t.MinY())
    ensures maxY == Min(31, t.MaxY())
    ensures Painted(BlankFrame(), rows, t.Cover())
    ensures forall p | p in t.Cover() :: minX <= p.x <= maxX && minY <= p.y <= maxY
  {
    minX := Max(0, t.MinX());
    maxX := Min(FB_SIZE - 1, t.MaxX());
    minY := Max(0, t.MinY());
    maxY := Min(FB_SIZE - 1, t.MaxY());
    area2 := Edge(t.v0, t.v1, t.v2);
    rows := BlankFrame();
    ghost var blank: Frame := rows;
    ghost var cover := t.Cover();
    CoverInBox(t);
    ScanStart(cover, minX, minY);
    ScanEmpty(blank);
    var y := minY;
    while y < maxY + 1
      invariant minY <= y && (minY <= maxY + 1 ==> y <= maxY + 1)
      invariant Painted(blank, rows, Scanned(cover, minX, y))
    {
      var x := minX;
      while x < maxX + 1
        invariant minX <= x && (minX <= maxX + 1 ==> x <= maxX + 1)
        invariant Painted(blank, rows, Scanned(cover, x, y))
      {
        var e0 := Edge(t.v0, t.v1, Point(x, y));
        var e1 := Edge(t.v1, t.v2, Point(x, y));
        var e2 := Edge(t.v2, t.v0, Point(x, y));
        var inside := false;
        if area2 > 0 {
          inside := e0 >= 0 && e1 >= 0 && e2 >= 0;
        } else if area2 < 0 {
          inside := e0 <= 0 && e1 <= 0 && e2 <= 0;
        }
        assert inside <==> Point(x, y) in cover;
        ScanPaint(blank, rows, cover, x, y);
        if inside {
          rows := SetPixel(rows, x, y);
        }
        x := x + 1;
      }
      if minX <= maxX {
        ScanNewRow(cover, minX, maxX, y);
      } else {
        assert cover == {};
      }
      y := y + 1;
    }
    ScanDone(cover, minX, y);
  }
}
