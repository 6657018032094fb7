/** What the executed instructions compute, bit by bit or modulo 2^32 (RISC-V Unprivileged ISA,
    version 20191213, section 2.4), and what the SPI status register shows. */
module Rv32Meaning {
  import opened Bits
  import opened Rv32
  import opened NpuMeaning

  lemma {:induction false} XorBit(a: nat, b: nat, i: nat)
    ensures Bit(Xor(a, b), i) == (Bit(a, i) != Bit(b, i))
    decreases i
  {
    if a == 0 && b == 0 {
      ZeroBit(i);
    } else {
      var low := if a % 2 != b % 2 then 1 else 0;
      assert Xor(a, b) / 2 == Xor(a / 2, b / 2) && Xor(a, b) % 2 == low;
      if i == 0 {
      } else {
        XorBit(a / 2, b / 2, i - 1);
      }
    }
  }

  /** The bitwise instructions work on each bit of their operands. */
  lemma BitwiseMeans<T>(m: Machine, card: Card, rd: reg, rs1: reg, rs2: reg, imm: int, k: nat)
    requires Sane(m) && rd != 0
    ensures var a, b, i: nat := Get(m, rs1), Get(m, rs2), imm % W32;
      && Bit(Get(Effect<T>(Xori(rd, rs1, imm), m, card), rd), k) == (Bit(a, k) != Bit(i, k))
      && Bit(Get(Effect<T>(Andi(rd, rs1, imm), m, card), rd), k) == (Bit(a, k) && Bit(i, k))
      && Bit(Get(Effect<T>(OrOp(rd, rs1, rs2), m, card), rd), k) == (Bit(a, k) || Bit(b, k))
  {
    hide Bit;
    XorBit(Get(m, rs1), Wrap(imm), k);
    AndBit(Get(m, rs1), Wrap(imm), k);
    OrBit(Get(m, rs1), Get(m, rs2), k);
  }

  /** The arithmetic ones compute modulo 2^32; shifts multiply and divide by powers of two. */
  lemma ArithmeticMeans<T>(m: Machine, card: Card, rd: reg, rs1: reg, rs2: reg, imm: int, k: nat)
    requires Sane(m) && rd != 0
    ensures var a, b: nat := Get(m, rs1), Get(m, rs2);
      && Get(Effect<T>(Lui(rd, imm), m, card), rd) == imm * 0x1000 % W32
      && Get(Effect<T>(Addi(rd, rs1, imm), m, card), rd) == (a + imm) % W32
      && Get(Effect<T>(Add(rd, rs1, rs2), m, card), rd) == (a + b) % W32
      && Get(Effect<T>(Slli(rd, rs1, k), m, card), rd) == a * Pow2(k) % W32
      && Get(Effect<T>(Srli(rd, rs1, k), m, card), rd) == a / Pow2(k) % W32
      && (Get(Effect<T>(Sltu(rd, rs1, rs2), m, card), rd) == 1 <==> a < b)
      && Get(Effect<T>(Sltu(rd, rs1, rs2), m, card), rd) <= 1
  {
    hide Pow2;
  }

  /** The custom instruction sums the products of four signed byte lanes. */
  lemma DotMeans<T>(m: Machine, card: Card, rd: reg, rs1: reg, rs2: reg)
    requires Sane(m) && rd != 0
    ensures IsScore(EmuSpec.AsInt32(Get(Effect<T>(Dot4(rd, rs1, rs2), m, card), rd)),
                    Get(m, rs1), 0, Get(m, rs2), 0, 0)
  {
    hide IsScore, EmuSpec.Dot4;
    var a, b := Get(m, rs1), Get(m, rs2);
    DotIsScore(a, 0, b, 0, 0);
    ZeroDot();
    WrappedInt(EmuSpec.Dot4(a, b));
  }

  lemma ZeroDot()
    ensures EmuSpec.Dot4(0, 0) == 0
  {
  }

  lemma WrappedInt(n: int)
    ensures EmuSpec.AsInt32(Wrap(n)) == EmuSpec.AsInt32(n)
  {
    DivModUnique(n % W32, W32, 0, n % W32);
  }

  /** Jumps: beq and bne go to their target iff the registers are equal or differ, jal always. */
  lemma JumpsMean(m: Machine, rd: reg, rs1: reg, rs2: reg, off: int, target: word)
    requires Sane(m)
    ensures NextPc(Beq(rs1, rs2, off), m, target) == if Get(m, rs1) == Get(m, rs2) then target else (m.pc + 4) % W32
    ensures NextPc(Bne(rs1, rs2, off), m, target) == if Get(m, rs1) == Get(m, rs2) then (m.pc + 4) % W32 else target
    ensures NextPc(Jal(rd, off), m, target) == target
    ensures var to := NextPc<int>(Jalr(rd, rs1, off), m, target);
      to % 2 == 0 && 0 <= (Get(m, rs1) + off) % W32 - to <= 1
  {
  }

  /** The SPI status: divider in the upper half, and done, busy and hold in bits 3, 2 and 1. */
  lemma SpiStatusBits(s: Spi)
    ensures var v: nat := SpiStatus(s);
      && v / 0x1_0000 == s.divider && v % 0x1_0000 < 16 && v % 2 == 0
      && (v / 8 % 2 == 1 <==> s.done) && (v / 4 % 2 == 1 <==> s.busy > 0) && (v / 2 % 2 == 1 <==> s.hold)
  {
    var b1, b2, b3 := if s.hold then 1 else 0, if s.busy > 0 then 1 else 0, if s.done then 1 else 0;
    var v: nat := SpiStatus(s);
    assert v == s.divider * 0x1_0000 + 8 * b3 + 4 * b2 + 2 * b1;
    DivModUnique(v, 0x1_0000, s.divider, 8 * b3 + 4 * b2 + 2 * b1);
    DivModUnique(v, 8, s.divider * 0x2000 + b3, 4 * b2 + 2 * b1);
    DivModUnique(s.divider * 0x2000 + b3, 2, s.divider * 0x1000, b3);
    DivModUnique(v, 4, s.divider * 0x4000 + 2 * b3 + b2, 2 * b1);
    DivModUnique(s.divider * 0x4000 + 2 * b3 + b2, 2, s.divider * 0x2000 + b3, b2);
    DivModUnique(v, 2, s.divider * 0x8000 + 4 * b3 + 2 * b2 + b1, 0);
    DivModUnique(s.divider * 0x8000 + 4 * b3 + 2 * b2 + b1, 2, s.divider * 0x4000 + 2 * b3 + b2, b1);
  }
}
