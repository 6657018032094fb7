/** Draining the ring: which descriptors run, in which order, and what they leave
    behind in the ring. */
module QueueDrain {
  import opened Bits
  import opened UnifiedMem
  import opened EmuSpec
  import opened EmuQueue

  // ------------------------------------------------------------------ memory footprint

  /** The output of descriptor `d` misses the bytes [lo, hi): the six result words of the
      NPU, or every one of the 32 framebuffer rows, wherever the pitch puts it. */
  predicate Avoids(e: Emu, d: Desc, lo: nat, hi: nat) {
    if IsNpu(d) then d.dst0 + 24 <= lo || hi <= d.dst0
    else if IsGpu(d) then RowsAvoid(Override(e, d).umem, lo, hi)
    else true
  }

  predicate RowsAvoid(u: Umem, lo: nat, hi: nat) {
    forall row: nat | row < 32 :: RowOffset(u, row) + 4 <= lo || hi <= RowOffset(u, row)
  }

  /** The bytes [lo, hi) are the same in both memories. */
  ghost predicate SameInside(a: seq<byte>, b: seq<byte>, lo: nat, hi: nat) {
    |a| == |b| && forall i | lo <= i < hi && i < |a| :: a[i] == b[i]
  }

  lemma OutsideIsInside(a: seq<byte>, b: seq<byte>, from: int, to: int, lo: nat, hi: nat)
    requires SameOutside(a, b, from, to) && (to <= lo || hi <= from)
    ensures SameInside(a, b, lo, hi)
  {
  }

  lemma {:induction false} WriteWordsInside(mem: seq<byte>, off: nat, words: seq<word>)
    requires off + 4 * |words| <= |mem|
    ensures SameOutside(mem, WriteWords(mem, off, words), off, off + 4 * |words|)
    decreases |words|
  {
    if words == [] {
    } else {
      WriteStaysInside(mem, off, words[0]);
      WriteWordsInside(Write32(mem, off, words[0]), off + 4, words[1..]);
    }
  }

  lemma {:induction false} CopyRowsKeep(mem: seq<byte>, u: Umem, fb: Raster.Frame, n: nat, lo: nat, hi: nat)
    requires n <= 32 && Limit(u) <= |mem| && forall row: nat | row < 32 :: RowOffset(u, row) + 4 <= Limit(u)
    requires RowsAvoid(u, lo, hi)
    ensures SameInside(mem, CopyRows(mem, u, fb, n), lo, hi)
  {
    hide RowOffset, Limit, Wrap, Write32;
    if n == 0 {
    } else {
      CopyRowsKeep(mem, u, fb, n - 1, lo, hi);
      var m, off: nat := CopyRows(mem, u, fb, n - 1), RowOffset(u, n - 1);
      WriteStaysInside(m, off, Wrap(fb[n - 1]));
      OutsideIsInside(m, Write32(m, off, Wrap(fb[n - 1])), off, off + 4, lo, hi);
    }
  }

  lemma NpuFootprint(e: Emu, lo: nat, hi: nat)
    requires NpuFits(e.npu, e.umem, e.mem) && (e.umem.npuOutput + 24 <= lo || hi <= e.umem.npuOutput)
    ensures SameInside(e.mem, RunNpu(e).mem, lo, hi)
  {
    var n := Infer(LoadOperands(e.npu.(busy := true), e.umem, e.mem)).(busy := false, done := true);
    hide Infer, WriteWords;
    if BufferEnabled(e.umem.ctrl, CTRL_NPU_USE_BUF) {
      var off := e.umem.npuOutput;
      WriteWordsInside(e.mem, off, OutputWords(n));
      OutsideIsInside(e.mem, WriteWords(e.mem, off, OutputWords(n)), off, off + 24, lo, hi);
    }
  }

  lemma GpuFootprint(u: Umem, fb: Raster.Frame, mem: seq<byte>, lo: nat, hi: nat)
    requires FbFits(u, mem) && RowsAvoid(u, lo, hi)
    ensures SameInside(mem, SyncFb(u, fb, mem), lo, hi)
  {
    if BufferEnabled(u.ctrl, CTRL_GPU_USE_BUF) {
      CopyRowsKeep(mem, u, fb, 32, lo, hi);
    }
  }

  /** An engine run leaves every byte range alone that its output misses. */
  lemma EngineFootprint(e: Emu, d: Desc, lo: nat, hi: nat)
    requires DescFits(e, d) && Avoids(e, d, lo, hi)
    ensures SameInside(e.mem, RunEngine(Override(e, d), d).mem, lo, hi)
  {
    hide NpuFits, FbFits, RunNpu, SyncFb, OrWord, Raster.PaintGrid, Raster.Triangle.Area2, Bbox, SameInside, RowsAvoid;
    var o := Override(e, d);
    if IsNpu(d) {
      NpuFootprint(o, lo, hi);
    } else if d.opcode == OP_GPU_CLEAR {
      GpuFootprint(o.umem, RunClear(o).fb, o.mem, lo, hi);
    } else if d.opcode == OP_GPU_DRAW_TRI {
      GpuFootprint(o.umem, RunDraw(o).fb, o.mem, lo, hi);
    } else {
      Untouched(e.mem, lo, hi);
    }
  }

  lemma Untouched(mem: seq<byte>, lo: nat, hi: nat)
    ensures SameInside(mem, mem, lo, hi)
  {
  }

  // ------------------------------------------------------------------ ring geometry

  function RingEnd(e: Emu): nat { e.cmdq.base + 32 * EntryCount(e.cmdq.size) }

  /** The ring of `n` descriptors lies in the unified memory. */
  ghost predicate RingPlaced(e: Emu) { RingEnd(e) <= Limit(e.umem) <= |e.mem| }

  /** The ring lies in the unified memory and the tail is an index. */
  ghost predicate RingOk(e: Emu) { RingPlaced(e) && e.cmdq.tail < EntryCount(e.cmdq.size) }

  /** The slot the tail stands for, whatever software has written into its register. */
  function TailSlot(q: Cmdq): (s: nat)
    ensures s < EntryCount(q.size)
    ensures q.tail < EntryCount(q.size) ==> s == q.tail
  {
    q.tail % EntryCount(q.size)
  }

  function RingDesc(e: Emu, slot: nat): Desc
    requires e.cmdq.base + 32 * slot + 32 <= |e.mem|
  {
    ReadDesc(e.mem, e.cmdq.base + 32 * slot)
  }

  /** The slot `k` places after slot `t`, for t and k up to n. */
  function SlotAt(n: nat, t: nat, k: nat): nat
    requires t < n && k <= n
  {
    if t + k < n then t + k else t + k - n
  }

  /** How far slot `s` lies ahead of slot `t`. */
  function Ahead(n: nat, t: nat, s: nat): nat
    requires t < n && s < n
  {
    if s >= t then s - t else s + n - t
  }

  /** `d` runs inside the unified memory and writes its output outside the ring. */
  predicate Safe(e: Emu, d: Desc) {
    DescFits(e, d) && Avoids(e, d, e.cmdq.base, RingEnd(e))
  }

  /** Everything `Safe` looks at. */
  ghost predicate SameRing(a: Emu, b: Emu) {
    && a.umem == b.umem && |a.mem| == |b.mem| && a.npu.modelId == b.npu.modelId
    && a.cmdq.base == b.cmdq.base && a.cmdq.size == b.cmdq.size
  }

  lemma SafeDepends(a: Emu, b: Emu, d: Desc)
    requires SameRing(a, b)
    ensures Safe(a, d) == Safe(b, d)
  {
    hide EntryCount, OrWord, BufferEnabled, RowOffset, RowsAvoid;
  }

  function Mark(d: Desc, done: bool): Desc {
    if done then d.(flags := DoneFlags(d)) else d
  }

  lemma SameDesc(before: seq<byte>, after: seq<byte>, lo: int, hi: int, off: nat)
    requires SameOutside(before, after, lo, hi) && off + 32 <= |before|
    requires hi <= off || off + 32 <= lo
    ensures ReadDesc(after, off) == ReadDesc(before, off)
  {
  }

  lemma KeptDesc(before: seq<byte>, after: seq<byte>, lo: nat, hi: nat, off: nat)
    requires SameInside(before, after, lo, hi) && lo <= off && off + 32 <= hi <= |before|
    ensures ReadDesc(after, off) == ReadDesc(before, off)
  {
  }

  lemma FlaggedDesc(mem: seq<byte>, off: nat, v: word)
    requires off + 32 <= |mem|
    ensures ReadDesc(Write32(mem, off + 4, v), off) == ReadDesc(mem, off).(flags := v)
  {
    hide Write32, Read32;
    ReadWrite(mem, off + 4, v, off); ReadWrite(mem, off + 4, v, off + 4);
    ReadWrite(mem, off + 4, v, off + 8); ReadWrite(mem, off + 4, v, off + 12);
    ReadWrite(mem, off + 4, v, off + 16); ReadWrite(mem, off + 4, v, off + 20);
    ReadWrite(mem, off + 4, v, off + 24); ReadWrite(mem, off + 4, v, off + 28);
  }

  lemma ExecuteMemory(e: Emu, off: nat, lo: nat, hi: nat)
    requires off + 32 <= |e.mem| && DescFits(e, ReadDesc(e.mem, off)) && Avoids(e, ReadDesc(e.mem, off), lo, hi)
    ensures var d := ReadDesc(e.mem, off);
      var ran := RunEngine(Override(e, d), d).mem;
      && SameInside(e.mem, ran, lo, hi)
      && Execute(e, off).mem == Write32(ran, off + 4, DoneFlags(d))
  {
    hide ReadDesc, NpuFits, FbFits, OrWord, RunNpu, RunClear, RunDraw, Account, SameInside, Avoids, Write32;
    EngineFootprint(e, ReadDesc(e.mem, off), lo, hi);
  }

  /** After the output is written outside the ring and slot t is flagged, slot s reads so. */
  lemma RingAfter(mem: seq<byte>, ran: seq<byte>, base: nat, n: nat, t: nat, s: nat, v: word)
    requires base + 32 * n <= |mem| && t < n && s < n && SameInside(mem, ran, base, base + 32 * n)
    ensures var r, d := Write32(ran, base + 32 * t + 4, v), ReadDesc(mem, base + 32 * s);
      ReadDesc(r, base + 32 * s) == if s == t then d.(flags := v) else d
  {
    hide ReadDesc, Write32;
    var off, at := base + 32 * t, base + 32 * s;
    assert |ran| == |mem|;
    KeptDesc(mem, ran, base, base + 32 * n, at);
    if s == t {
      FlaggedDesc(ran, off, v);
    } else {
      WriteStaysInside(ran, off + 4, v);
      SameDesc(ran, Write32(ran, off + 4, v), off + 4, off + 8, at);
    }
  }

  /** Executing the descriptor of slot `t` changes, of the ring, only that slot's flags. */
  lemma ExecuteKeepsRing(e: Emu, t: nat, s: nat)
    requires RingPlaced(e) && t < EntryCount(e.cmdq.size) && s < EntryCount(e.cmdq.size)
    requires Safe(e, RingDesc(e, t))
    ensures var r := Execute(e, e.cmdq.base + 32 * t);
      |r.mem| == |e.mem| && ReadDesc(r.mem, e.cmdq.base + 32 * s) == Mark(RingDesc(e, s), s == t)
  {
    hide ReadDesc, NpuFits, FbFits, Execute, RunEngine, Override, EntryCount, Avoids, Write32, DoneFlags;
    var d := RingDesc(e, t);
    ExecuteMemory(e, e.cmdq.base + 32 * t, e.cmdq.base, RingEnd(e));
    RingAfter(e.mem, RunEngine(Override(e, d), d).mem, e.cmdq.base, EntryCount(e.cmdq.size), t, s, DoneFlags(d));
  }

  // ------------------------------------------------------------------ one retirement

  /** Where the tail goes after one descriptor, from any value of the tail register. */
  function NextIndex(q: Cmdq): (s: nat)
    ensures s < EntryCount(q.size)
  {
    Wrap(q.tail + 1) % EntryCount(q.size)
  }

  lemma SlotOfTail(q: Cmdq)
    requires q.base + 32 * EntryCount(q.size) < W32
    ensures SlotOffset(q, q.tail) == q.base + 32 * TailSlot(q)
  {
    hide EntryCount;
    DivModUnique(q.base + 32 * TailSlot(q), W32, 0, q.base + 32 * TailSlot(q));
  }

  lemma NextTail(q: Cmdq)
    requires q.tail < EntryCount(q.size)
    ensures Wrap(q.tail + 1) % EntryCount(q.size) == SlotAt(EntryCount(q.size), q.tail, 1)
  {
    var n := EntryCount(q.size);
    assert n <= W32 - 1 || q.tail + 1 <= n;
    if q.tail + 1 == n {
      DivModUnique(n, n, 1, 0);
    } else {
      DivModUnique(q.tail + 1, n, 0, q.tail + 1);
    }
  }

  /** The queue counters after one descriptor. */
  ghost predicate Counted(a: Cmdq, b: Cmdq, d: Desc) {
    && b.processed == Wrap(a.processed + 1)
    && b.npuCount == Wrap(a.npuCount + if d.opcode == OP_NPU_INFER then 1 else 0)
    && b.gpuCount == Wrap(a.gpuCount + if d.opcode == OP_GPU_CLEAR || d.opcode == OP_GPU_DRAW_TRI then 1 else 0)
    && b.errorCount == Wrap(a.errorCount + if Known(d) then 0 else 1)
  }

  lemma AccountCounts(q: Cmdq, base: word, d: Desc, model: byte)
    ensures var r := Retired(Account(Fetched(q, base, d.opcode), d, model), Known(d));
      && Counted(q, r, d) && r.base == q.base && r.size == q.size && r.head == q.head
      && r.tail == Wrap(q.tail + 1) % EntryCount(q.size)
  {
    hide EntryCount, Wrap, ExecStatus;
    WrapSame(q.npuCount);
    WrapSame(q.gpuCount);
    WrapSame(q.errorCount);
  }

  lemma WrapSame(x: word)
    ensures Wrap(x) == x
  {
  }

  lemma FetchedSafe(e: Emu, d: Desc, q: Cmdq)
    requires q.base == e.cmdq.base && q.size == e.cmdq.size
    ensures Safe(e.(cmdq := q), d) == Safe(e, d)
  {
    SafeDepends(e, e.(cmdq := q), d);
  }

  /** What one retirement changes, from any value of the tail register: the tail moves to the
      next index, the counters count the descriptor, and of the ring only the retired slot's
      flags change. */
  lemma RetireStep(e: Emu)
    requires RingPlaced(e) && Safe(e, RingDesc(e, TailSlot(e.cmdq)))
    ensures RetireFits(e) && TailDesc(e) == RingDesc(e, TailSlot(e.cmdq))
    ensures var r, n, t := Retire(e), EntryCount(e.cmdq.size), TailSlot(e.cmdq);
      && SameRing(e, r) && RingOk(r) && r.cmdq.head == e.cmdq.head && r.cmdq.tail == NextIndex(e.cmdq)
      && Counted(e.cmdq, r.cmdq, RingDesc(e, t))
      && forall s: nat | s < n :: RingDesc(r, s) == Mark(RingDesc(e, s), s == t)
  {
    hide ReadDesc, Execute, EntryCount, Safe, Counted, Account, Retired, Fetched, SlotOffset, TailSlot, Mark;
    var q, n, t := e.cmdq, EntryCount(e.cmdq.size), TailSlot(e.cmdq);
    SlotOfTail(q);
    var d := RingDesc(e, t);
    var f := e.(cmdq := Fetched(q, e.umem.base, d.opcode));
    FetchKeeps(q, e.umem.base, d.opcode);
    FetchedSafe(e, d, f.cmdq);
    SafeFits(e, d);
    SafeFits(f, d);
    SavedRegistersRestored(f, q.base + 32 * t);
    ExecuteAccounts(f, q.base + 32 * t);
    AccountCounts(q, e.umem.base, d, Override(f, d).npu.modelId);
    assert Retire(e).mem == Execute(f, q.base + 32 * t).mem;
    forall s: nat | s < n ensures RingDesc(Retire(e), s) == Mark(RingDesc(e, s), s == t) {
      ExecuteKeepsRing(f, t, s);
    }
  }

  /** The same of a tail in the ring. */
  lemma RetireInRing(e: Emu)
    requires RingOk(e) && Safe(e, RingDesc(e, e.cmdq.tail))
    ensures RetireFits(e) && TailDesc(e) == RingDesc(e, e.cmdq.tail)
    ensures var r, n, t := Retire(e), EntryCount(e.cmdq.size), e.cmdq.tail;
      && SameRing(e, r) && RingOk(r) && r.cmdq.head == e.cmdq.head && r.cmdq.tail == SlotAt(n, t, 1)
      && forall s: nat | s < n :: RingDesc(r, s) == Mark(RingDesc(e, s), s == t)
  {
    hide ReadDesc, EntryCount, Safe, Counted, Retire, RetireFits, TailDesc, TailSlot, NextIndex, Mark;
    NextIndexInRing(e.cmdq);
    RetireStep(e);
  }

  lemma FetchKeeps(q: Cmdq, base: word, opcode: word)
    ensures var r := Fetched(q, base, opcode);
      r.base == q.base && r.size == q.size && r.head == q.head && r.tail == q.tail && r.processed == q.processed
  {
  }

  lemma SafeFits(e: Emu, d: Desc)
    requires Safe(e, d)
    ensures DescFits(e, d)
  {
  }

  lemma ExecuteAccounts(e: Emu, off: nat)
    requires off + 32 <= |e.mem| && DescFits(e, ReadDesc(e.mem, off))
    ensures var d := ReadDesc(e.mem, off);
      Execute(e, off).cmdq == Account(e.cmdq, d, Override(e, d).npu.modelId)
  {
  }

  // ------------------------------------------------------------------ whole drains

  /** How many descriptors lie before head, from any value of the tail register.  A tail
      outside the ring counts for one descriptor and then continues inside. */
  function Pending(q: Cmdq): nat
    requires q.head < EntryCount(q.size)
  {
    var n := EntryCount(q.size);
    if q.tail < n then Ahead(n, q.tail, q.head) else 1 + Ahead(n, NextIndex(q), q.head)
  }

  /** How many descriptors a drain from here executes: up to head, or `safety` if head is
      not a ring index or lies further away. */
  function Steps(q: Cmdq, safety: nat): nat {
    if q.tail == q.head then 0
    else if q.head < EntryCount(q.size) && Pending(q) < safety then Pending(q)
    else safety
  }

  /** The tail after m descriptors. */
  function TailAfter(q: Cmdq, m: nat): nat
    requires m <= EntryCount(q.size)
  {
    if m == 0 then q.tail else SlotAt(EntryCount(q.size), NextIndex(q), m - 1)
  }

  function CountIf(ds: seq<Desc>, p: Desc -> bool): nat {
    if ds == [] then 0 else (if p(ds[0]) then 1 else 0) + CountIf(ds[1..], p)
  }

  predicate IsNop(d: Desc) { d.opcode == OP_NOP }
  predicate IsNpu(d: Desc) { d.opcode == OP_NPU_INFER }
  predicate IsGpu(d: Desc) { d.opcode == OP_GPU_CLEAR || d.opcode == OP_GPU_DRAW_TRI }
  predicate IsUnknown(d: Desc) { !Known(d) }

  lemma {:induction false} CountsAddUp(ds: seq<Desc>)
    ensures CountIf(ds, IsNop) + CountIf(ds, IsNpu) + CountIf(ds, IsGpu) + CountIf(ds, IsUnknown) == |ds|
  {
    if ds == [] {
    } else {
      CountsAddUp(ds[1..]);
    }
  }

  /** The queue counters after the descriptors of `log`. */
  ghost predicate CountedAll(a: Cmdq, b: Cmdq, log: seq<Desc>) {
    && b.processed == Wrap(a.processed + |log|)
    && b.npuCount == Wrap(a.npuCount + CountIf(log, IsNpu))
    && b.gpuCount == Wrap(a.gpuCount + CountIf(log, IsGpu))
    && b.errorCount == Wrap(a.errorCount + CountIf(log, IsUnknown))
  }

  lemma CountedCons(a: Cmdq, b: Cmdq, c: Cmdq, d: Desc, log: seq<Desc>)
    requires Counted(a, b, d) && CountedAll(b, c, log)
    ensures CountedAll(a, c, [d] + log)
  {
    assert ([d] + log)[1..] == log;
    WrapAdd(a.processed, 1, |log|);
    WrapAdd(a.npuCount, if IsNpu(d) then 1 else 0, CountIf(log, IsNpu));
    WrapAdd(a.gpuCount, if IsGpu(d) then 1 else 0, CountIf(log, IsGpu));
    WrapAdd(a.errorCount, if IsUnknown(d) then 1 else 0, CountIf(log, IsUnknown));
    hide Wrap;
  }

  lemma WrapAdd(a: int, i: int, k: int)
    ensures Wrap(Wrap(a + i) + k) == Wrap(a + (i + k))
  {
  }

  /** `r` is `e` after its first `m` pending descriptors, `log`, have been executed:
      the ring is unchanged except that exactly their slots are marked. */
  ghost predicate DrainedBy(e: Emu, r: Emu, log: seq<Desc>, m: nat)
    requires RingOk(e) && m <= EntryCount(e.cmdq.size)
  {
    var n, t := EntryCount(e.cmdq.size), e.cmdq.tail;
    && SameRing(e, r) && RingOk(r) && r.cmdq.head == e.cmdq.head && r.cmdq.tail == SlotAt(n, t, m)
    && |log| == m && (forall k | 0 <= k < m :: log[k] == RingDesc(e, SlotAt(n, t, k)))
    && (forall s: nat | s < n :: RingDesc(r, s) == Mark(RingDesc(e, s), Ahead(n, t, s) < m))
  }

  ghost predicate PendingSafe(e: Emu, m: nat)
    requires RingOk(e) && m <= EntryCount(e.cmdq.size)
  {
    forall k: nat | k < m :: Safe(e, RingDesc(e, SlotAt(EntryCount(e.cmdq.size), e.cmdq.tail, k)))
  }

  lemma PendingSafeStep(e: Emu, r: Emu, m: nat)
    requires RingOk(e) && 0 < m <= EntryCount(e.cmdq.size) && PendingSafe(e, m)
    requires SameRing(e, r) && RingOk(r) && r.cmdq.tail == SlotAt(EntryCount(e.cmdq.size), e.cmdq.tail, 1)
    requires forall s: nat | s < EntryCount(e.cmdq.size) :: RingDesc(r, s) == Mark(RingDesc(e, s), s == e.cmdq.tail)
    ensures PendingSafe(r, m - 1)
  {
    hide ReadDesc, EntryCount, Safe;
    var n, t := EntryCount(e.cmdq.size), e.cmdq.tail;
    forall k: nat | k < m - 1 ensures Safe(r, RingDesc(r, SlotAt(n, r.cmdq.tail, k))) {
      var s := SlotAt(n, t, k + 1);
      assert SlotAt(n, r.cmdq.tail, k) == s != t;
      assert Safe(e, RingDesc(e, s));
      SafeDepends(e, r, RingDesc(e, s));
    }
  }

  /** The log of a drain whose first descriptor has been executed. */
  lemma LogCons(e: Emu, x: Emu, log: seq<Desc>, m: nat)
    requires RingOk(e) && 0 < m <= EntryCount(e.cmdq.size)
    requires SameRing(e, x) && RingOk(x) && x.cmdq.tail == SlotAt(EntryCount(e.cmdq.size), e.cmdq.tail, 1)
    requires forall s: nat | s < EntryCount(e.cmdq.size) :: RingDesc(x, s) == Mark(RingDesc(e, s), s == e.cmdq.tail)
    requires |log| == m - 1
    requires forall k | 0 <= k < m - 1 :: log[k] == RingDesc(x, SlotAt(EntryCount(e.cmdq.size), x.cmdq.tail, k))
    ensures forall k | 0 <= k < m ::
      ([RingDesc(e, e.cmdq.tail)] + log)[k] == RingDesc(e, SlotAt(EntryCount(e.cmdq.size), e.cmdq.tail, k))
  {
    hide RingDesc, EntryCount, DoneFlags;
    var n, t := EntryCount(e.cmdq.size), e.cmdq.tail;
    forall k | 0 <= k < m ensures ([RingDesc(e, t)] + log)[k] == RingDesc(e, SlotAt(n, t, k)) {
      if k > 0 {
        assert ([RingDesc(e, t)] + log)[k] == log[k - 1] == RingDesc(x, SlotAt(n, x.cmdq.tail, k - 1));
        assert SlotAt(n, x.cmdq.tail, k - 1) == SlotAt(n, t, k) != t;
      }
    }
  }

  lemma DrainedCons(e: Emu, x: Emu, r: Emu, log: seq<Desc>, m: nat)
    requires RingOk(e) && 0 < m <= EntryCount(e.cmdq.size)
    requires SameRing(e, x) && RingOk(x) && x.cmdq.tail == SlotAt(EntryCount(e.cmdq.size), e.cmdq.tail, 1)
    requires x.cmdq.head == e.cmdq.head
    requires forall s: nat | s < EntryCount(e.cmdq.size) :: RingDesc(x, s) == Mark(RingDesc(e, s), s == e.cmdq.tail)
    requires DrainedBy(x, r, log, m - 1)
    ensures DrainedBy(e, r, [RingDesc(e, e.cmdq.tail)] + log, m)
  {
    hide ReadDesc, EntryCount, DoneFlags, Limit;
    var n, t := EntryCount(e.cmdq.size), e.cmdq.tail;
    LogCons(e, x, log, m);
    forall s: nat | s < n ensures RingDesc(r, s) == Mark(RingDesc(e, s), Ahead(n, t, s) < m) {
      assert RingDesc(r, s) == Mark(RingDesc(x, s), Ahead(n, x.cmdq.tail, s) < m - 1);
      assert s != t ==> Ahead(n, x.cmdq.tail, s) == Ahead(n, t, s) - 1;
      assert s == t ==> Ahead(n, x.cmdq.tail, s) == n - 1;
    }
  }

  lemma StepsDown(q: Cmdq, q': Cmdq, safety: nat)
    requires q'.size == q.size && q'.head == q.head
    requires q.tail != q.head && 0 < safety && q'.tail == NextIndex(q)
    ensures Steps(q, safety) > 0 && Steps(q', safety - 1) == Steps(q, safety) - 1
    ensures safety <= EntryCount(q.size) ==> TailAfter(q, Steps(q, safety)) == TailAfter(q', Steps(q, safety) - 1)
  {
    hide EntryCount, Wrap;
    if q.tail < EntryCount(q.size) { NextTail(q); }
    if q'.tail < EntryCount(q.size) { NextTail(q'); }
  }

  /** One retirement, wherever the tail is and whatever the descriptor writes. */
  lemma RetireCounts(e: Emu)
    requires RetireFits(e)
    ensures var q := Retire(e).cmdq;
      && Counted(e.cmdq, q, TailDesc(e)) && q.base == e.cmdq.base && q.size == e.cmdq.size
      && q.head == e.cmdq.head && q.tail == NextIndex(e.cmdq)
  {
    hide ReadDesc, Execute, EntryCount, Counted, Account, Retired, Fetched, SlotOffset, DescFits;
    var d := TailDesc(e);
    var f := e.(cmdq := Fetched(e.cmdq, e.umem.base, d.opcode));
    FitsIgnoresQueue(e, f.cmdq, d);
    ExecuteAccounts(f, SlotOffset(e.cmdq, e.cmdq.tail));
    AccountCounts(e.cmdq, e.umem.base, d, Override(f, d).npu.modelId);
  }

  lemma FitsIgnoresQueue(e: Emu, q: Cmdq, d: Desc)
    ensures DescFits(e.(cmdq := q), d) == DescFits(e, d)
  {
    hide OrWord, BufferEnabled;
  }

  /** A drain runs exactly as many descriptors as lie before head, or `safety` many if head
      cannot be reached; the tail ends behind them and every one is counted.  Nothing is
      asked of the tail or of what the descriptors write, only that each runs inside memory. */
  lemma {:induction false} DrainCounts(e: Emu, safety: nat)
    requires DrainFits(e, safety) && safety <= EntryCount(e.cmdq.size)
    ensures |Executed(e, safety)| == Steps(e.cmdq, safety)
    ensures CountedAll(e.cmdq, Drain(e, safety).cmdq, Executed(e, safety))
    ensures var q := Drain(e, safety).cmdq;
      q.size == e.cmdq.size && q.head == e.cmdq.head && q.tail == TailAfter(e.cmdq, Steps(e.cmdq, safety))
    decreases safety
  {
    hide EntryCount, Retire, TailDesc, RetireFits, Counted, CountedAll;
    if e.cmdq.tail == e.cmdq.head || safety == 0 {
      CountedNone(e.cmdq);
    } else {
      RetireCounts(e);
      var x := Retire(e);
      StepsDown(e.cmdq, x.cmdq, safety);
      DrainCounts(x, safety - 1);
      CountedCons(e.cmdq, x.cmdq, Drain(x, safety - 1).cmdq, TailDesc(e), Executed(x, safety - 1));
    }
  }

  /** If moreover tail is a ring index and no output overlaps the ring, the descriptors run
      are the pending ones as they stood, in ring order, and exactly their slots are marked. */
  lemma {:induction false} DrainExact(e: Emu, safety: nat)
    requires RingOk(e) && safety <= EntryCount(e.cmdq.size)
    requires PendingSafe(e, Steps(e.cmdq, safety))
    ensures DrainFits(e, safety)
    ensures DrainedBy(e, Drain(e, safety), Executed(e, safety), Steps(e.cmdq, safety))
    decreases safety
  {
    hide ReadDesc, EntryCount, Safe, Retire, TailDesc, RetireFits, Counted, DoneFlags;
    if e.cmdq.tail == e.cmdq.head || safety == 0 {
    } else {
      var m := Steps(e.cmdq, safety);
      assert Safe(e, RingDesc(e, SlotAt(EntryCount(e.cmdq.size), e.cmdq.tail, 0)));
      RetireStep(e);
      NextTail(e.cmdq);
      var x := Retire(e);
      StepsDown(e.cmdq, x.cmdq, safety);
      PendingSafeStep(e, x, m);
      DrainExact(x, safety - 1);
      var r, log := Drain(x, safety - 1), Executed(x, safety - 1);
      DrainedCons(e, x, r, log, m);
    }
  }

  // ------------------------------------------------------------------ marking, from any tail

  /** The slot of the k-th descriptor a drain executes, counted from 0. */
  function Visited(q: Cmdq, k: nat): (s: nat)
    requires k <= EntryCount(q.size)
    ensures s < EntryCount(q.size)
  {
    if k == 0 then TailSlot(q) else SlotAt(EntryCount(q.size), NextIndex(q), k - 1)
  }

  ghost predicate VisitedSafe(e: Emu, m: nat)
    requires RingPlaced(e) && m <= EntryCount(e.cmdq.size)
  {
    forall k: nat | k < m :: Safe(e, RingDesc(e, Visited(e.cmdq, k)))
  }

  ghost predicate IsVisited(q: Cmdq, m: nat, s: nat)
    requires m <= EntryCount(q.size)
  {
    exists k: nat :: k < m && Visited(q, k) == s
  }

  /** `r` is `e` after its first `m` descriptors, `log`, have been executed, from any value of
      the tail register: exactly the visited slots are marked.  A tail outside the ring may
      bring the drain back to the slot it began with, which it then finds marked. */
  ghost predicate MarkedBy(e: Emu, r: Emu, log: seq<Desc>, m: nat)
    requires RingPlaced(e) && m <= EntryCount(e.cmdq.size)
  {
    var q := e.cmdq;
    && SameRing(e, r) && r.cmdq.head == q.head && r.cmdq.tail == TailAfter(q, m) && |log| == m
    && (forall k | 0 <= k < m ::
          log[k] == Mark(RingDesc(e, Visited(q, k)), k > 0 && Visited(q, k) == TailSlot(q)))
    && (forall s: nat | s < EntryCount(q.size) :: RingDesc(r, s) == Mark(RingDesc(e, s), IsVisited(q, m, s)))
  }

  /** Where a drain goes depends on tail and size only. */
  lemma SameVisits(q: Cmdq, r: Cmdq, m: nat)
    requires q.tail == r.tail && q.size == r.size && m <= EntryCount(q.size)
    ensures TailSlot(q) == TailSlot(r) && NextIndex(q) == NextIndex(r) && TailAfter(q, m) == TailAfter(r, m)
    ensures forall s: nat :: IsVisited(q, m, s) == IsVisited(r, m, s)
    ensures forall k: nat | k <= m :: Visited(q, k) == Visited(r, k)
  {
    hide EntryCount;
    assert forall k: nat | k < m :: Visited(q, k) == Visited(r, k);
  }

  lemma MarkAgain(d: Desc)
    ensures DoneFlags(Mark(d, true)) == DoneFlags(d) && Mark(Mark(d, true), true) == Mark(d, true)
  {
  }

  /** A marked descriptor names the same model, buffers and output. */
  lemma MarkSafe(e: Emu, d: Desc)
    ensures Safe(e, Mark(d, true)) == Safe(e, d)
  {
    hide EntryCount, OrWord, BufferEnabled, RowsAvoid;
  }

  lemma VisitedSafeStep(e: Emu, x: Emu, m: nat)
    requires RingPlaced(e) && 0 < m <= EntryCount(e.cmdq.size) && VisitedSafe(e, m)
    requires SameRing(e, x) && RingOk(x) && x.cmdq.tail == NextIndex(e.cmdq)
    requires forall s: nat | s < EntryCount(e.cmdq.size) ::
               RingDesc(x, s) == Mark(RingDesc(e, s), s == TailSlot(e.cmdq))
    ensures PendingSafe(x, m - 1)
  {
    hide ReadDesc, EntryCount, Safe, DoneFlags, TailSlot, NextIndex;
    var n := EntryCount(e.cmdq.size);
    forall k: nat | k < m - 1 ensures Safe(x, RingDesc(x, SlotAt(n, x.cmdq.tail, k))) {
      var s := SlotAt(n, x.cmdq.tail, k);
      assert s == Visited(e.cmdq, k + 1);
      assert Safe(e, RingDesc(e, s));
      MarkSafe(e, RingDesc(e, s));
      SafeDepends(e, x, RingDesc(x, s));
    }
  }

  lemma VisitedCons(q: Cmdq, m: nat, s: nat)
    requires 0 < m <= EntryCount(q.size) && s < EntryCount(q.size)
    ensures IsVisited(q, m, s) <==> s == TailSlot(q) || Ahead(EntryCount(q.size), NextIndex(q), s) < m - 1
  {
    hide EntryCount, TailSlot, NextIndex;
    var n, t := EntryCount(q.size), NextIndex(q);
    if s == TailSlot(q) {
      assert Visited(q, 0) == s;
    } else if Ahead(n, t, s) < m - 1 {
      assert Visited(q, Ahead(n, t, s) + 1) == s;
    } else {
      forall k: nat | k < m ensures Visited(q, k) != s {
        if k > 0 { assert Ahead(n, t, SlotAt(n, t, k - 1)) == k - 1; }
      }
    }
  }

  /** The first descriptor, then a drain inside the ring. */
  lemma MarkedCons(e: Emu, x: Emu, r: Emu, log: seq<Desc>, m: nat)
    requires RingPlaced(e) && 0 < m <= EntryCount(e.cmdq.size)
    requires SameRing(e, x) && RingOk(x) && x.cmdq.tail == NextIndex(e.cmdq) && x.cmdq.head == e.cmdq.head
    requires forall s: nat | s < EntryCount(e.cmdq.size) ::
               RingDesc(x, s) == Mark(RingDesc(e, s), s == TailSlot(e.cmdq))
    requires DrainedBy(x, r, log, m - 1)
    ensures MarkedBy(e, r, [RingDesc(e, TailSlot(e.cmdq))] + log, m)
  {
    hide ReadDesc, EntryCount, DoneFlags, Limit, TailSlot, NextIndex, IsVisited;
    var n, t, q := EntryCount(e.cmdq.size), TailSlot(e.cmdq), e.cmdq;
    forall k | 0 <= k < m
      ensures ([RingDesc(e, t)] + log)[k] == Mark(RingDesc(e, Visited(q, k)), k > 0 && Visited(q, k) == t)
    {
      if k > 0 {
        assert Visited(q, k) == SlotAt(n, x.cmdq.tail, k - 1);
        assert ([RingDesc(e, t)] + log)[k] == log[k - 1];
      }
    }
    forall s: nat | s < n ensures RingDesc(r, s) == Mark(RingDesc(e, s), IsVisited(q, m, s)) {
      VisitedCons(q, m, s);
      MarkAgain(RingDesc(e, s));
      assert RingDesc(r, s) == Mark(RingDesc(x, s), Ahead(n, x.cmdq.tail, s) < m - 1);
    }
  }

  /** Whatever the tail, if no output overlaps the ring, the descriptors run are those of the
      visited slots, in order, and exactly these slots are marked. */
  lemma DrainMarks(e: Emu, safety: nat)
    requires RingPlaced(e) && safety <= EntryCount(e.cmdq.size)
    requires VisitedSafe(e, Steps(e.cmdq, safety))
    ensures DrainFits(e, safety)
    ensures MarkedBy(e, Drain(e, safety), Executed(e, safety), Steps(e.cmdq, safety))
  {
    hide ReadDesc, EntryCount, Safe, Retire, TailDesc, RetireFits, Counted, DoneFlags, TailSlot, NextIndex;
    if e.cmdq.tail == e.cmdq.head || safety == 0 {
    } else {
      var m := Steps(e.cmdq, safety);
      StepsPositive(e.cmdq, safety);
      assert Safe(e, RingDesc(e, Visited(e.cmdq, 0)));
      RetireStep(e);
      var x := Retire(e);
      StepsDown(e.cmdq, x.cmdq, safety);
      VisitedSafeStep(e, x, m);
      DrainExact(x, safety - 1);
      MarkedCons(e, x, Drain(x, safety - 1), Executed(x, safety - 1), m);
    }
  }

  lemma StepsPositive(q: Cmdq, safety: nat)
    requires q.tail != q.head && safety > 0
    ensures 0 < Steps(q, safety) <= safety
  {
  }

  /** With the tail in the ring the visited slots are the pending ones. */
  lemma MarkedInRing(e: Emu, r: Emu, log: seq<Desc>, m: nat)
    requires RingOk(e) && m <= EntryCount(e.cmdq.size) && MarkedBy(e, r, log, m)
    ensures DrainedBy(e, r, log, m)
  {
    hide ReadDesc, EntryCount, DoneFlags, Limit, TailSlot, NextIndex, IsVisited;
    var n, t, q := EntryCount(e.cmdq.size), e.cmdq.tail, e.cmdq;
    NextIndexInRing(q);
    forall k: nat | k <= m ensures k < n ==> Visited(q, k) == SlotAt(n, t, k) {}
    forall s: nat | s < n ensures RingDesc(r, s) == Mark(RingDesc(e, s), Ahead(n, t, s) < m) {
      if m > 0 { VisitedCons(q, m, s); } else { NoneVisited(q, s); }
    }
  }

  lemma NextIndexInRing(q: Cmdq)
    requires q.tail < EntryCount(q.size)
    ensures NextIndex(q) == SlotAt(EntryCount(q.size), q.tail, 1) && TailSlot(q) == q.tail
  {
    NextTail(q);
  }

  lemma NoneVisited(q: Cmdq, s: nat)
    ensures !IsVisited(q, 0, s)
  {
  }

  lemma CountedNone(q: Cmdq)
    ensures CountedAll(q, q, [])
  {
  }

  lemma StartedKeeps(e: Emu)
    requires RingPlaced(e)
    ensures var b := Started(e);
      && RingPlaced(b) && SameRing(e, b) && b.cmdq.head == e.cmdq.head && b.cmdq.tail == e.cmdq.tail && b.mem == e.mem
      && b.cmdq.processed == e.cmdq.processed && b.cmdq.npuCount == e.cmdq.npuCount
      && b.cmdq.gpuCount == e.cmdq.gpuCount && b.cmdq.errorCount == e.cmdq.errorCount
  {
  }

  /** The doorbell handler, for every head and tail.  With head an index of the ring it ends
      with tail equal to head: from a tail in the ring it runs the (head - tail) mod n pending
      descriptors, from any other tail one and then those from its next index up to head.  With
      head out of range and tail elsewhere it runs exactly n and reports ERROR.  ERROR is set iff
      it got stuck or met an unknown opcode, and each descriptor is counted once. */
  lemma ProcessExact(e: Emu)
    requires DrainFits(Started(e), EntryCount(e.cmdq.size))
    ensures var q, r, n := e.cmdq, Process(e), EntryCount(e.cmdq.size);
      var log := Executed(Started(e), n);
      && |log| == (if q.tail == q.head then 0 else if q.head >= n then n else Pending(q))
      && r.cmdq.tail == TailAfter(q, |log|) && r.cmdq.head == q.head
      && (r.cmdq.tail == r.cmdq.head <==> q.tail == q.head || q.head < n)
      && CountedAll(q, r.cmdq, log)
      && r.cmdq.status == QueueStatus(r.cmdq, (q.head >= n && q.tail != q.head) || !AllKnown(log))
      && (q.head >= n && q.tail != q.head ==> r.cmdq.fetchStatus == 2)
  {
    hide EntryCount, DrainFits, Drain, Executed, AllKnown, CountIf, QueueStatus, Wrap;
    var n, b := EntryCount(e.cmdq.size), Started(e);
    StartedCounts(e);
    DrainCounts(b, n);
    ReachesHead(e.cmdq);
    var x := Drain(b, n);
    StatusSettled(if x.cmdq.tail != x.cmdq.head then x.cmdq.(fetchStatus := STATUS_ERROR) else x.cmdq);
    StatusIgnoresFetch(x.cmdq);
  }

  lemma StartedCounts(e: Emu)
    ensures var q, b := e.cmdq, Started(e).cmdq;
      && b.head == q.head && b.tail == q.tail && b.size == q.size && b.processed == q.processed
      && b.npuCount == q.npuCount && b.gpuCount == q.gpuCount && b.errorCount == q.errorCount
  {
  }

  /** Within one turn of the ring head is reached from everywhere, if it is in the ring. */
  lemma ReachesHead(q: Cmdq)
    ensures var n := EntryCount(q.size);
      && (q.head < n ==> Pending(q) <= n && TailAfter(q, Pending(q)) == q.head)
      && (q.head >= n && q.tail != q.head ==> TailAfter(q, n) != q.head)
  {
    hide EntryCount, Wrap;
    if q.tail < EntryCount(q.size) { NextTail(q); }
  }

  lemma StatusIgnoresFetch(q: Cmdq)
    ensures forall v: word, error: bool :: QueueStatus(q.(fetchStatus := v), error) == QueueStatus(q, error)
  {
  }

  /** Marking, for every tail and outputs off the ring: exactly the slots visited are marked,
      each DONE and with ERROR iff its opcode is unknown. */
  lemma ProcessMarks(e: Emu)
    requires RingPlaced(e) && VisitedSafe(e, Steps(e.cmdq, EntryCount(e.cmdq.size)))
    ensures var n := EntryCount(e.cmdq.size);
      && DrainFits(Started(e), n)
      && MarkedBy(e, Process(e), Executed(Started(e), n), Steps(e.cmdq, n))
  {
    hide ReadDesc, EntryCount, Safe, DrainFits, Drain, Executed, AllKnown, DoneFlags, QueueStatus, CountIf, TailSlot;
    hide NextIndex, IsVisited, MarkedBy;
    var n, b := EntryCount(e.cmdq.size), Started(e);
    StartedKeeps(e);
    SameVisits(e.cmdq, b.cmdq, n);
    forall k: nat | k < Steps(e.cmdq, n) ensures Safe(b, RingDesc(b, Visited(b.cmdq, k))) {
      assert Visited(b.cmdq, k) == Visited(e.cmdq, k);
      assert Safe(e, RingDesc(e, Visited(e.cmdq, k)));
      SafeDepends(e, b, RingDesc(e, Visited(e.cmdq, k)));
    }
    DrainMarks(b, n);
    var x, log, m := Drain(b, n), Executed(b, n), Steps(e.cmdq, n);
    Rebased(e, b, x, log, m);
    Finished(e, x, Process(e).cmdq, log, m);
  }

  /** With the tail in the ring these are the pending slots. */
  lemma ProcessInRing(e: Emu)
    requires RingOk(e) && PendingSafe(e, Steps(e.cmdq, EntryCount(e.cmdq.size)))
    ensures var n := EntryCount(e.cmdq.size);
      && DrainFits(Started(e), n)
      && DrainedBy(e, Process(e), Executed(Started(e), n), Steps(e.cmdq, n))
  {
    hide ReadDesc, EntryCount, Safe, DrainFits, Executed, MarkedBy, Process, Started, TailSlot, NextIndex;
    var n, q := EntryCount(e.cmdq.size), e.cmdq;
    var m := Steps(q, n);
    NextIndexInRing(q);
    forall k: nat | k < m ensures Safe(e, RingDesc(e, Visited(q, k))) {
      assert Visited(q, k) == SlotAt(n, q.tail, k);
    }
    ProcessMarks(e);
    MarkedInRing(e, Process(e), Executed(Started(e), n), m);
  }

  lemma StatusSettled(q: Cmdq)
    ensures forall v: word, error: bool :: QueueStatus(q.(status := v), error) == QueueStatus(q, error)
  {
  }

  lemma Rebased(e: Emu, b: Emu, x: Emu, log: seq<Desc>, m: nat)
    requires RingPlaced(e) && RingPlaced(b) && m <= EntryCount(e.cmdq.size)
    requires SameRing(e, b) && b.mem == e.mem && b.cmdq.head == e.cmdq.head && b.cmdq.tail == e.cmdq.tail
    requires MarkedBy(b, x, log, m)
    ensures MarkedBy(e, x, log, m)
  {
    hide RingDesc, EntryCount, Mark, TailSlot, IsVisited, Visited, TailAfter;
    SameVisits(e.cmdq, b.cmdq, m);
    assert forall s: nat | s < EntryCount(e.cmdq.size) :: RingDesc(b, s) == RingDesc(e, s) by { SameRingDescs(e, b); }
  }

  lemma SameRingDescs(e: Emu, b: Emu)
    requires RingPlaced(e) && b.mem == e.mem && b.cmdq.base == e.cmdq.base
    ensures forall s: nat | s < EntryCount(e.cmdq.size) :: RingDesc(b, s) == RingDesc(e, s)
  {
    hide ReadDesc, EntryCount;
  }

  /** The final status update leaves the drained state alone. */
  lemma Finished(e: Emu, x: Emu, q: Cmdq, log: seq<Desc>, m: nat)
    requires RingPlaced(e) && m <= EntryCount(e.cmdq.size)
    requires MarkedBy(e, x, log, m)
    requires q == x.cmdq.(fetchStatus := q.fetchStatus, status := q.status)
    ensures MarkedBy(e, x.(cmdq := q), log, m)
  {
    hide ReadDesc, EntryCount, DoneFlags, CountIf, TailSlot, IsVisited;
  }
}
