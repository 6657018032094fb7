/** What an inference run of the emulator means: its results from its operands, and its operands
    and results in unified memory. */
module NpuMeaning {
  import opened Bits
  import opened UnifiedMem
  import opened EmuSpec

  // ------------------------------------------------------------------ scores

  /** The eight signed bytes of two words, least significant first. */
  ghost predicate SignedLanes(x: seq<int>, low: word, high: word) {
    && |x| == 8
    && forall k | 0 <= k < 8 ::
         -128 <= x[k] < 128 && (x[k] - ByteOf(if k < 4 then low else high, k % 4)) % 256 == 0
  }

  function Products(x: seq<int>, y: seq<int>): int
    requires |x| == |y|
  {
    if x == [] then 0 else Products(x[..|x| - 1], y[..|y| - 1]) + x[|x| - 1] * y[|y| - 1]
  }

  /** `s` is, as a signed 32-bit number, the products of the eight lanes plus the bias. */
  ghost predicate IsScore(s: int, input0: word, input1: word, weightA: word, weightB: word, bias: int) {
    && -0x8000_0000 <= s < 0x8000_0000
    && exists x, w :: SignedLanes(x, input0, input1) && SignedLanes(w, weightA, weightB)
         && (s - (Products(x, w) + bias)) % W32 == 0
  }

  function Lanes(low: word, high: word): seq<int> {
    [SignedByte(low, 0), SignedByte(low, 1), SignedByte(low, 2), SignedByte(low, 3),
     SignedByte(high, 0), SignedByte(high, 1), SignedByte(high, 2), SignedByte(high, 3)]
  }

  lemma SignedByteLane(w: word, k: nat)
    requires k < 4
    ensures -128 <= SignedByte(w, k) < 128 && (SignedByte(w, k) - ByteOf(w, k)) % 256 == 0
  {
    hide ByteOf;
  }

  lemma LanesSigned(low: word, high: word)
    ensures SignedLanes(Lanes(low, high), low, high)
  {
    hide SignedByte, ByteOf;
    forall k | 0 <= k < 8
      ensures -128 <= Lanes(low, high)[k] < 128
      ensures (Lanes(low, high)[k] - ByteOf(if k < 4 then low else high, k % 4)) % 256 == 0
    {
      SignedByteLane(if k < 4 then low else high, k % 4);
    }
  }

  lemma FirstProducts(x: seq<int>, y: seq<int>)
    requires |x| == |y| == 4
    ensures Products(x, y) == x[0] * y[0] + x[1] * y[1] + x[2] * y[2] + x[3] * y[3]
  {
    assert x[..3][..2] == x[..2] && x[..2][..1] == x[..1] && x[..1][..0] == [];
    assert y[..3][..2] == y[..2] && y[..2][..1] == y[..1] && y[..1][..0] == [];
    assert Products(x[..1], y[..1]) == x[0] * y[0];
    assert Products(x[..2], y[..2]) == x[0] * y[0] + x[1] * y[1];
    assert Products(x[..3], y[..3]) == x[0] * y[0] + x[1] * y[1] + x[2] * y[2];
  }

  lemma {:induction false} ProductsJoin(a: seq<int>, b: seq<int>, x: seq<int>, y: seq<int>)
    requires |a| == |b| && |x| == |y|
    ensures Products(a + x, b + y) == Products(a, b) + Products(x, y)
    decreases |x|
  {
    if x == [] {
      assert a + x == a && b + y == b;
    } else {
      var n, m := |a + x| - 1, |x| - 1;
      assert (a + x)[..n] == a + x[..m] && (b + y)[..n] == b + y[..m];
      ProductsJoin(a, b, x[..m], y[..m]);
    }
  }

  lemma DotIsScore(input0: word, input1: word, weightA: word, weightB: word, bias: int)
    ensures IsScore(AsInt32(Dot4(input0, weightA) + Dot4(input1, weightB) + bias),
                    input0, input1, weightA, weightB, bias)
  {
    hide SignedByte, SignedLanes;
    LanesSigned(input0, input1);
    LanesSigned(weightA, weightB);
    var x, w := Lanes(input0, input1), Lanes(weightA, weightB);
    assert x == x[..4] + x[4..] && w == w[..4] + w[4..];
    ProductsJoin(x[..4], w[..4], x[4..], w[4..]);
    FirstProducts(x[..4], w[..4]);
    FirstProducts(x[4..], w[4..]);
    SameResidue(Products(x, w) + bias);
  }

  lemma SameResidue(n: int)
    ensures -0x8000_0000 <= AsInt32(n) < 0x8000_0000 && (AsInt32(n) - n) % W32 == 0
  {
    var q, u := n / W32, n % W32;
    assert n == q * W32 + u;
    if u >= 0x8000_0000 {
      assert AsInt32(n) - n == (-q - 1) * W32;
      DivModUnique((-q - 1) * W32, W32, -q - 1, 0);
    } else {
      assert AsInt32(n) - n == -q * W32;
      DivModUnique(-q * W32, W32, -q, 0);
    }
  }

  // ------------------------------------------------------------------ results

  /** The two scores of the operands and weights that stand in the registers. */
  ghost predicate Scored(r: Npu, s0: int, s1: int) {
    if r.modelId == 0x80 || r.modelId == 0x81 then
      && IsScore(s0, r.input0, r.input1, r.weight0a, r.weight0b, r.bias0)
      && IsScore(s1, r.input0, r.input1, r.weight1a, r.weight1b, r.bias1)
    else if r.modelId == 0x02 then
      && IsScore(s0, r.input0, r.input1, 0xFFFF_FFFF, 0x0101_0101, 2)
      && IsScore(s1, r.input0, r.input1, 0x0101_0101, 0xFFFF_FFFF, -2)
    else
      && IsScore(s0, r.input0, r.input1, 0x0101_0101, 0xFFFF_FFFF, 0)
      && IsScore(s1, r.input0, r.input1, 0xFFFF_FFFF, 0x0101_0101, 0)
  }

  /** Linear models report the scores; the two-layer one clamps them to hidden values and
      reports their difference, both ways round. */
  ghost predicate Reported(r: Npu) {
    if r.modelId == 0x81 then
      && (exists s0, s1 :: Scored(r, s0, s1) && r.hidden0 == (if s0 < 0 then 0 else s0)
                           && r.hidden1 == (if s1 < 0 then 0 else s1))
      && r.logit0 == r.hidden0 - r.hidden1 && r.logit1 == -r.logit0
    else Scored(r, r.logit0, r.logit1) && r.hidden0 == r.logit0 && r.hidden1 == r.logit1
  }

  /** The class is the larger logit, the first on a tie; the status word carries a marker, the
      class, the model and the low byte of the sequence length. */
  ghost predicate Classified(r: Npu) {
    && (r.classId == 1 <==> r.logit1 > r.logit0) && r.classId <= 1
    && ByteOf(r.statusWord, 3) == 0x4E && ByteOf(r.statusWord, 2) == r.classId
    && ByteOf(r.statusWord, 1) == r.modelId && ByteOf(r.statusWord, 0) == r.seqLength % 256
  }

  lemma BiasResidue(s: int, a: word, b: word, c: word, d: word, bias: word)
    requires IsScore(s, a, b, c, d, AsInt32(bias))
    ensures IsScore(s, a, b, c, d, bias)
  {
    var x, w :| SignedLanes(x, a, b) && SignedLanes(w, c, d) && (s - (Products(x, w) + AsInt32(bias))) % W32 == 0;
    var p := s - (Products(x, w) + AsInt32(bias));
    assert AsInt32(bias) == bias || AsInt32(bias) == bias - W32;
    DivModUnique(p - W32, W32, p / W32 - 1, 0);
    assert (s - (Products(x, w) + bias)) % W32 == 0;
  }

  lemma LinearScores(n: Npu)
    ensures var w := SelectWeights(n);
      Scored(n, AsInt32(Dot4(n.input0, w.w0a) + Dot4(n.input1, w.w0b) + w.b0),
                AsInt32(Dot4(n.input0, w.w1a) + Dot4(n.input1, w.w1b) + w.b1))
  {
    hide Dot4, AsInt32, IsScore;
    var w := SelectWeights(n);
    DotIsScore(n.input0, n.input1, w.w0a, w.w0b, w.b0);
    DotIsScore(n.input0, n.input1, w.w1a, w.w1b, w.b1);
    if IsRuntime(n.modelId) {
      BiasResidue(AsInt32(Dot4(n.input0, w.w0a) + Dot4(n.input1, w.w0b) + w.b0),
                  n.input0, n.input1, w.w0a, w.w0b, n.bias0);
      BiasResidue(AsInt32(Dot4(n.input0, w.w1a) + Dot4(n.input1, w.w1b) + w.b1),
                  n.input0, n.input1, w.w1a, w.w1b, n.bias1);
    }
  }

  /** Results do not enter into the scores. */
  lemma ScoresOfOperands(a: Npu, b: Npu, s0: int, s1: int)
    requires Scored(a, s0, s1) && a.modelId == b.modelId && a.input0 == b.input0 && a.input1 == b.input1
    requires a.weight0a == b.weight0a && a.weight0b == b.weight0b && a.bias0 == b.bias0
    requires a.weight1a == b.weight1a && a.weight1b == b.weight1b && a.bias1 == b.bias1
    ensures Scored(b, s0, s1)
  {
    hide IsScore;
  }

  lemma InferReports(n: Npu)
    ensures Reported(Infer(n)) && Classified(Infer(n))
  {
    hide Dot4, AsInt32, Scored, SelectWeights;
    var w, r := SelectWeights(n), Infer(n);
    var s0 := AsInt32(Dot4(n.input0, w.w0a) + Dot4(n.input1, w.w0b) + w.b0);
    var s1 := AsInt32(Dot4(n.input0, w.w1a) + Dot4(n.input1, w.w1b) + w.b1);
    LinearScores(n);
    ScoresOfOperands(n, r, s0, s1);
    JoinBytes(n.seqLength % 256, n.modelId, r.classId, 0x4E);
  }

  /** The whole run: what it reports of the operands it leaves in the registers. */
  lemma NpuResults(e: Emu)
    requires NpuFits(e.npu, e.umem, e.mem)
    ensures var r := RunNpu(e).npu; Reported(r) && Classified(r) && !r.busy && r.done
    ensures RunNpu(e).npu.modelId == e.npu.modelId && RunNpu(e).npu.seqLength == e.npu.seqLength
  {
    hide Infer, Reported, Classified, WriteWords, Scored;
    var n := LoadOperands(e.npu.(busy := true), e.umem, e.mem);
    InferReports(n);
    InferOperands(n);
    SameReports(Infer(n), RunNpu(e).npu);
  }

  lemma InferOperands(n: Npu)
    ensures Infer(n) == n.(hidden0 := Infer(n).hidden0, hidden1 := Infer(n).hidden1, logit0 := Infer(n).logit0,
                           logit1 := Infer(n).logit1, classId := Infer(n).classId, statusWord := Infer(n).statusWord)
  {
    hide Dot4, AsInt32, SelectWeights;
  }

  lemma SameReports(a: Npu, b: Npu)
    requires Reported(a) && Classified(a) && b == a.(busy := b.busy, done := b.done)
    ensures Reported(b) && Classified(b)
  {
    hide IsScore;
    if a.modelId == 0x81 {
      var s0, s1 :| Scored(a, s0, s1) && a.hidden0 == (if s0 < 0 then 0 else s0)
                    && a.hidden1 == (if s1 < 0 then 0 else s1);
      ScoresOfOperands(a, b, s0, s1);
    }
  }

  // ------------------------------------------------------------------ unified memory

  /** The buffer is used exactly when bits 0 and 1 of the control register are set. */
  lemma NpuBufferBits(ctrl: word)
    ensures BufferEnabled(ctrl, CTRL_NPU_USE_BUF) <==> Bit(ctrl, 0) && Bit(ctrl, 1)
  {
    assert And(ctrl, 3) == 2 * And(ctrl / 2, 1) + ctrl % 2;
    assert And(ctrl / 2, 1) == ctrl / 2 % 2;
  }

  /** With the buffer, operands come from memory: two input words, and for runtime models six
      weight words.  Otherwise, and for the weights of built-in models, the registers stand. */
  lemma NpuOperands(e: Emu)
    requires NpuFits(e.npu, e.umem, e.mem)
    ensures var r, buffered := RunNpu(e).npu, Bit(e.umem.ctrl, 0) && Bit(e.umem.ctrl, 1);
      var at, weightAt := e.umem.npuInput, e.umem.npuWeight;
      && (if buffered then
            && at + 8 <= |e.mem| && r.input0 == Read32(e.mem, at) && r.input1 == Read32(e.mem, at + 4)
          else r.input0 == e.npu.input0 && r.input1 == e.npu.input1)
      && (if buffered && (e.npu.modelId == 0x80 || e.npu.modelId == 0x81) then
            && weightAt + 24 <= |e.mem|
            && r.weight0a == Read32(e.mem, weightAt) && r.weight0b == Read32(e.mem, weightAt + 4)
            && r.weight1a == Read32(e.mem, weightAt + 8) && r.weight1b == Read32(e.mem, weightAt + 12)
            && r.bias0 == Read32(e.mem, weightAt + 16) && r.bias1 == Read32(e.mem, weightAt + 20)
          else
            && r.weight0a == e.npu.weight0a && r.weight0b == e.npu.weight0b && r.bias0 == e.npu.bias0
            && r.weight1a == e.npu.weight1a && r.weight1b == e.npu.weight1b && r.bias1 == e.npu.bias1)
  {
    hide Infer, WriteWords, Read32, BufferEnabled;
    NpuBufferBits(e.umem.ctrl);
    InferOperands(LoadOperands(e.npu.(busy := true), e.umem, e.mem));
  }

  /** With the buffer, the six results stand in memory in this order; without, memory is untouched. */
  lemma NpuStores(e: Emu)
    requires NpuFits(e.npu, e.umem, e.mem)
    ensures var r, m, at := RunNpu(e).npu, RunNpu(e).mem, e.umem.npuOutput;
      if Bit(e.umem.ctrl, 0) && Bit(e.umem.ctrl, 1) then
        && at + 24 <= |m| && Read32(m, at) == r.statusWord
        && (Read32(m, at + 4) - r.logit0) % W32 == 0 && (Read32(m, at + 8) - r.logit1) % W32 == 0
        && Read32(m, at + 12) == r.classId
        && (Read32(m, at + 16) - r.hidden0) % W32 == 0 && (Read32(m, at + 20) - r.hidden1) % W32 == 0
      else m == e.mem
  {
    hide Infer, Read32, BufferEnabled, LoadOperands;
    NpuBufferBits(e.umem.ctrl);
    var n := Infer(LoadOperands(e.npu.(busy := true), e.umem, e.mem)).(busy := false, done := true);
    if BufferEnabled(e.umem.ctrl, CTRL_NPU_USE_BUF) {
      var m, at, w := RunNpu(e).mem, e.umem.npuOutput, OutputWords(n);
      WrittenWords(e.mem, at, w);
      assert Read32(m, at + 4 * 0) == w[0] && Read32(m, at + 4 * 1) == w[1] && Read32(m, at + 4 * 2) == w[2];
      assert Read32(m, at + 4 * 3) == w[3] && Read32(m, at + 4 * 4) == w[4] && Read32(m, at + 4 * 5) == w[5];
      WrapResidue(n.logit0);
      WrapResidue(n.logit1);
      WrapResidue(n.hidden0);
      WrapResidue(n.hidden1);
    }
  }

  lemma WrapResidue(n: int)
    ensures (Wrap(n) - n) % W32 == 0
  {
    assert Wrap(n) - n == (-(n / W32)) * W32;
    DivModUnique((-(n / W32)) * W32, W32, -(n / W32), 0);
  }

  lemma {:induction false} WrittenWords(mem: seq<byte>, off: nat, words: seq<word>)
    requires off + 4 * |words| <= |mem|
    ensures forall k | 0 <= k < |words| :: Read32(WriteWords(mem, off, words), off + 4 * k) == words[k]
    ensures forall at: nat | at + 4 <= off :: Read32(WriteWords(mem, off, words), at) == Read32(mem, at)
    decreases |words|
  {
    hide Read32, Write32;
    if words == [] {
    } else {
      var m := Write32(mem, off, words[0]);
      WrittenWords(m, off + 4, words[1..]);
      ReadWrite(mem, off, words[0], off);
      forall at: nat | at + 4 <= off ensures Read32(m, at) == Read32(mem, at) {
        ReadWrite(mem, off, words[0], at);
      }
      forall k | 0 <= k < |words| ensures Read32(WriteWords(mem, off, words), off + 4 * k) == words[k] {
        if k > 0 {
          assert words[1..][k - 1] == words[k] && off + 4 + 4 * (k - 1) == off + 4 * k;
        }
      }
    }
  }
}
