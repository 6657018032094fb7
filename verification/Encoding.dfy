/** Instruction words as the generator builds them, by shifting and OR-ing fields, and the
    round trip through the decoder. */
module Encoding {
  import opened Bits
  import opened Rv32

  // ------------------------------------------------------------------ OR of shifted fields

  lemma ShiftValues()
    ensures Pow2(7) == 0x80 && Pow2(8) == 0x100 && Pow2(12) == 0x1000 && Pow2(15) == 0x8000
    ensures Pow2(20) == 0x10_0000 && Pow2(21) == 0x20_0000 && Pow2(25) == 0x200_0000 && Pow2(31) == 0x8000_0000
    ensures Pow2(11) == 0x800 && Pow2(5) == 32
  {
    Pow2Values();
    assert Pow2(5) == 2 * Pow2(4);
    Pow2Add(8, 4); Pow2Add(16, 4); Pow2Add(16, 5); Pow2Add(24, 1);
    assert Pow2(16) == 2 * Pow2(15) && Pow2(8) == 2 * Pow2(7) && Pow2(32) == 2 * Pow2(31) && Pow2(12) == 2 * Pow2(11);
    assert Pow2(1) == 2;
  }

  /** A field below bit k joined to one at or above it. */
  lemma Joined(high: nat, k: nat, p: nat, low: nat)
    requires p == Pow2(k) && low < p
    ensures Or(high * p, low) == high * p + low
  {
    OrDisjoint(high, low, k);
  }

  /** The R layout: function code in bits 31 to 25, second and first source, function code in
      bits 14 to 12, destination, and the opcode in the low seven bits. */
  function Fields(f7: nat, rs2: nat, rs1: nat, f3: nat, rd: nat, op: nat): nat {
    Or(Or(Or(Or(Or(f7 * 0x200_0000, rs2 * 0x10_0000), rs1 * 0x8000), f3 * 0x1000), rd * 0x80), op)
  }

  predicate Narrow(f7: nat, rs2: nat, rs1: nat, f3: nat, rd: nat, op: nat) {
    f7 < 128 && rs2 < 32 && rs1 < 32 && f3 < 8 && rd < 32 && op < 128
  }

  function Sum(f7: nat, rs2: nat, rs1: nat, f3: nat, rd: nat, op: nat): nat {
    f7 * 0x200_0000 + rs2 * 0x10_0000 + rs1 * 0x8000 + f3 * 0x1000 + rd * 0x80 + op
  }

  lemma FieldsAreSum(f7: nat, rs2: nat, rs1: nat, f3: nat, rd: nat, op: nat)
    requires Narrow(f7, rs2, rs1, f3, rd, op)
    ensures Fields(f7, rs2, rs1, f3, rd, op) == Sum(f7, rs2, rs1, f3, rd, op) < W32
  {
    ShiftValues();
    hide Or;
    var a := f7 * 32 + rs2;
    Joined(f7 * 32, 20, 0x10_0000, 0);
    Joined(f7, 25, 0x200_0000, rs2 * 0x10_0000);
    var b := a * 32 + rs1;
    Joined(a, 20, 0x10_0000, rs1 * 0x8000);
    var c := b * 8 + f3;
    Joined(b, 15, 0x8000, f3 * 0x1000);
    var d := c * 32 + rd;
    Joined(c, 12, 0x1000, rd * 0x80);
    Joined(d, 7, 0x80, op);
  }

  /** Reading the fields back out of their sum. */
  lemma SplitFields(f7: nat, rs2: nat, rs1: nat, f3: nat, rd: nat, op: nat)
    requires Narrow(f7, rs2, rs1, f3, rd, op)
    ensures var w := Sum(f7, rs2, rs1, f3, rd, op);
      && w % 128 == op && w / 0x80 % 32 == rd && w / 0x1000 % 8 == f3 && w / 0x8000 % 32 == rs1
      && w / 0x10_0000 % 32 == rs2 && w / 0x200_0000 == f7
      && w / 0x10_0000 == f7 * 32 + rs2 && w / 0x1000 == ((f7 * 32 + rs2) * 32 + rs1) * 8 + f3
  {
    var w := Sum(f7, rs2, rs1, f3, rd, op);
    var a := f7 * 32 + rs2;
    var b := a * 32 + rs1;
    var c := b * 8 + f3;
    var d := c * 32 + rd;
    DivModUnique(w, 128, d, op);
    DivModUnique(d, 32, c, rd);
    DivModUnique(w, 0x1000, c, rd * 0x80 + op);
    DivModUnique(c, 8, b, f3);
    DivModUnique(w, 0x8000, b, f3 * 0x1000 + rd * 0x80 + op);
    DivModUnique(b, 32, a, rs1);
    DivModUnique(w, 0x10_0000, a, rs1 * 0x8000 + f3 * 0x1000 + rd * 0x80 + op);
    DivModUnique(a, 32, f7, rs2);
    DivModUnique(w, 0x200_0000, f7, rs2 * 0x10_0000 + rs1 * 0x8000 + f3 * 0x1000 + rd * 0x80 + op);
  }

  /** The I layout: as R, with a 12-bit immediate in the upper bits. */
  function FieldsI(imm12: nat, rs1: nat, f3: nat, rd: nat, op: nat): nat {
    Or(Or(Or(Or(imm12 * 0x10_0000, rs1 * 0x8000), f3 * 0x1000), rd * 0x80), op)
  }

  lemma FieldsIAreSum(imm12: nat, rs1: nat, f3: nat, rd: nat, op: nat)
    requires imm12 < 0x1000 && Narrow(0, 0, rs1, f3, rd, op)
    ensures FieldsI(imm12, rs1, f3, rd, op) == Sum(imm12 / 32, imm12 % 32, rs1, f3, rd, op) < W32
  {
    ShiftValues();
    hide Or;
    var b := imm12 * 32 + rs1;
    Joined(imm12, 20, 0x10_0000, rs1 * 0x8000);
    var c := b * 8 + f3;
    Joined(b, 15, 0x8000, f3 * 0x1000);
    var d := c * 32 + rd;
    Joined(c, 12, 0x1000, rd * 0x80);
    Joined(d, 7, 0x80, op);
  }

  /** The U layout: a 20-bit immediate above the destination and the opcode. */
  function FieldsU(imm20: nat, rd: nat, op: nat): nat {
    Or(Or(imm20 * 0x1000, rd * 0x80), op)
  }

  lemma FieldsUSplit(imm20: nat, rd: nat, op: nat)
    requires imm20 < 0x10_0000 && rd < 32 && op < 128
    ensures var w := FieldsU(imm20, rd, op);
      w < W32 && w % 128 == op && w / 0x80 % 32 == rd && w / 0x1000 == imm20
  {
    ShiftValues();
    hide Or;
    var d := imm20 * 32 + rd;
    Joined(imm20, 12, 0x1000, rd * 0x80);
    Joined(d, 7, 0x80, op);
    var w := d * 0x80 + op;
    DivModUnique(w, 128, d, op);
    DivModUnique(d, 32, imm20, rd);
    DivModUnique(w, 0x1000, imm20, rd * 0x80 + op);
  }

  /** The branch layout: imm[12|10:5] above, imm[4:1|11] in the rd position. */
  function FieldsB(b12: nat, b10: nat, rs2: nat, rs1: nat, f3: nat, b4: nat, b11: nat, op: nat): nat {
    Or(Or(Or(Or(Or(Or(Or(b12 * 0x8000_0000, b10 * 0x200_0000), rs2 * 0x10_0000), rs1 * 0x8000), f3 * 0x1000),
             b4 * 0x100), b11 * 0x80), op)
  }

  lemma FieldsBAreSum(b12: nat, b10: nat, rs2: nat, rs1: nat, f3: nat, b4: nat, b11: nat, op: nat)
    requires b12 < 2 && b10 < 64 && b4 < 16 && b11 < 2 && Narrow(0, rs2, rs1, f3, 0, op)
    ensures FieldsB(b12, b10, rs2, rs1, f3, b4, b11, op) == Sum(b12 * 64 + b10, rs2, rs1, f3, b4 * 2 + b11, op) < W32
  {
    ShiftValues();
    hide Or;
    var f7 := b12 * 64 + b10;
    Joined(b12, 31, 0x8000_0000, b10 * 0x200_0000);
    var a := f7 * 32 + rs2;
    Joined(f7, 25, 0x200_0000, rs2 * 0x10_0000);
    var b := a * 32 + rs1;
    Joined(a, 20, 0x10_0000, rs1 * 0x8000);
    var c := b * 8 + f3;
    Joined(b, 15, 0x8000, f3 * 0x1000);
    var e := c * 16 + b4;
    Joined(c, 12, 0x1000, b4 * 0x100);
    var d := e * 2 + b11;
    Joined(e, 8, 0x100, b11 * 0x80);
    Joined(d, 7, 0x80, op);
  }

  /** The jal layout: imm[20|10:1|11|19:12]. */
  function FieldsJ(b20: nat, b10: nat, b11: nat, b19: nat, rd: nat, op: nat): nat {
    Or(Or(Or(Or(Or(b20 * 0x8000_0000, b10 * 0x20_0000), b11 * 0x10_0000), b19 * 0x1000), rd * 0x80), op)
  }

  lemma FieldsJSplit(b20: nat, b10: nat, b11: nat, b19: nat, rd: nat, op: nat)
    requires b20 < 2 && b10 < 1024 && b11 < 2 && b19 < 256 && rd < 32 && op < 128
    ensures var w := FieldsJ(b20, b10, b11, b19, rd, op);
      && w < W32 && w % 128 == op && w / 0x80 % 32 == rd
      && w / 0x8000_0000 == b20 && w / 0x20_0000 % 1024 == b10 && w / 0x10_0000 % 2 == b11 && w / 0x1000 % 256 == b19
  {
    ShiftValues();
    hide Or;
    var a := b20 * 1024 + b10;
    Joined(b20, 31, 0x8000_0000, b10 * 0x20_0000);
    var b := a * 2 + b11;
    Joined(a, 21, 0x20_0000, b11 * 0x10_0000);
    var c := b * 256 + b19;
    Joined(b, 20, 0x10_0000, b19 * 0x1000);
    var d := c * 32 + rd;
    Joined(c, 12, 0x1000, rd * 0x80);
    Joined(d, 7, 0x80, op);
    var w := d * 0x80 + op;
    DivModUnique(w, 128, d, op);
    DivModUnique(d, 32, c, rd);
    DivModUnique(w, 0x1000, c, rd * 0x80 + op);
    DivModUnique(c, 256, b, b19);
    DivModUnique(w, 0x10_0000, b, b19 * 0x1000 + rd * 0x80 + op);
    DivModUnique(b, 2, a, b11);
    DivModUnique(w, 0x20_0000, a, b11 * 0x10_0000 + b19 * 0x1000 + rd * 0x80 + op);
    DivModUnique(a, 1024, b20, b10);
    DivModUnique(w, 0x8000_0000, b20, b10 * 0x20_0000 + b11 * 0x10_0000 + b19 * 0x1000 + rd * 0x80 + op);
  }

  lemma SmallImmediates()
    ensures forall v | -0x800 <= v < 0x800 :: SignedRange(v, 12)
  {
    ShiftValues();
  }

  // ------------------------------------------------------------------ words

  /** The checks the encoders make; jump distances are checked when they are resolved. */
  predicate Encodable<T>(i: Insn<T>) {
    match i
    case Addi(_, _, imm) => SignedRange(imm, 12)
    case Xori(_, _, imm) => SignedRange(imm, 12)
    case Andi(_, _, imm) => SignedRange(imm, 12)
    case Slli(_, _, k) => 0 <= k < 32
    case Srli(_, _, k) => 0 <= k < 32
    case Lw(_, imm, _) => SignedRange(imm, 12)
    case Sw(_, imm, _) => SignedRange(imm, 12)
    case Sb(_, imm, _) => SignedRange(imm, 12)
    case Jalr(_, _, imm) => SignedRange(imm, 12)
    case _ => true
  }

  predicate IsJump<T>(i: Insn<T>) { i.Beq? || i.Bne? || i.Jal? }

  function StoreFields(imm: int, rs2: nat, rs1: nat, f3: nat): nat {
    var u: nat := imm % 0x1000;
    Fields(u / 32 % 128, rs2, rs1, f3, u % 32, 0x23)
  }

  /** The word emitted for an instruction that is not a jump. */
  function PlainWord<T>(i: Insn<T>): nat {
    match i
    case Lui(rd, imm) => FieldsU(imm % 0x10_0000, rd, 0x37)
    case Addi(rd, rs1, imm) => FieldsI(imm % 0x1000, rs1, 0, rd, 0x13)
    case Xori(rd, rs1, imm) => FieldsI(imm % 0x1000, rs1, 4, rd, 0x13)
    case Andi(rd, rs1, imm) => FieldsI(imm % 0x1000, rs1, 7, rd, 0x13)
    case Slli(rd, rs1, k) => FieldsI(k % 32, rs1, 1, rd, 0x13)
    case Srli(rd, rs1, k) => FieldsI(k % 32, rs1, 5, rd, 0x13)
    case Lw(rd, imm, rs1) => FieldsI(imm % 0x1000, rs1, 2, rd, 0x03)
    case Sw(rs2, imm, rs1) => StoreFields(imm, rs2, rs1, 2)
    case Sb(rs2, imm, rs1) => StoreFields(imm, rs2, rs1, 0)
    case Add(rd, rs1, rs2) => Fields(0, rs2, rs1, 0, rd, 0x33)
    case OrOp(rd, rs1, rs2) => Fields(0, rs2, rs1, 6, rd, 0x33)
    case Sltu(rd, rs1, rs2) => Fields(0, rs2, rs1, 3, rd, 0x33)
    case Dot4(rd, rs1, rs2) => Fields(0x2A, rs2, rs1, 0, rd, 0x0B)
    case Jalr(rd, rs1, imm) => FieldsI(imm % 0x1000, rs1, 0, rd, 0x67)
    case _ => 0
  }

  /** Whether a jump of `off` bytes passes the encoder's assertions. */
  predicate InReach<T>(i: Insn<T>, off: int) {
    off % 2 == 0 && if i.Jal? then SignedRange(off, 21) else SignedRange(off, 13)
  }

  /** What is accepted: twelve-bit signed immediates, shifts below 32, even branch distances below
      4 KiB either way, even jumps below 1 MiB. */
  lemma AcceptedRanges<T>(a: reg, b: reg, imm: int, to: T, off: int)
    ensures Encodable<T>(Addi(a, b, imm)) <==> -2048 <= imm <= 2047
    ensures Encodable<T>(Xori(a, b, imm)) <==> -2048 <= imm <= 2047
    ensures Encodable<T>(Andi(a, b, imm)) <==> -2048 <= imm <= 2047
    ensures Encodable<T>(Lw(a, imm, b)) <==> -2048 <= imm <= 2047
    ensures Encodable<T>(Sw(a, imm, b)) <==> -2048 <= imm <= 2047
    ensures Encodable<T>(Sb(a, imm, b)) <==> -2048 <= imm <= 2047
    ensures Encodable<T>(Jalr(a, b, imm)) <==> -2048 <= imm <= 2047
    ensures Encodable<T>(Slli(a, b, imm)) <==> 0 <= imm <= 31
    ensures Encodable<T>(Srli(a, b, imm)) <==> 0 <= imm <= 31
    ensures InReach(Beq(a, b, to), off) <==> off % 2 == 0 && -4096 <= off <= 4095
    ensures InReach(Bne(a, b, to), off) <==> off % 2 == 0 && -4096 <= off <= 4095
    ensures InReach(Jal(a, to), off) <==> off % 2 == 0 && -0x10_0000 <= off <= 0xF_FFFF
  {
    RangePowers();
    hide Pow2;
  }

  lemma RangePowers()
    ensures Pow2(11) == 2048 && Pow2(12) == 4096 && Pow2(20) == 0x10_0000
  {
    Pow2Values();
    Pow2Add(8, 3);
    Pow2Add(8, 4);
    Pow2Add(16, 4);
    assert Pow2(3) == 8;
  }

  function BranchWord(f3: nat, rs1: nat, rs2: nat, off: int): nat {
    var u: nat := off % 0x2000;
    FieldsB(u / 0x1000 % 2, u / 32 % 64, rs2, rs1, f3, u / 2 % 16, u / 0x800 % 2, 0x63)
  }

  function JalWord(rd: nat, off: int): nat {
    var u: nat := off % 0x20_0000;
    FieldsJ(u / 0x10_0000 % 2, u / 2 % 1024, u / 0x800 % 2, u / 0x1000 % 256, rd, 0x6F)
  }

  function JumpWord<T>(i: Insn<T>, off: int): nat {
    match i
    case Beq(rs1, rs2, _) => BranchWord(0, rs1, rs2, off)
    case Bne(rs1, rs2, _) => BranchWord(1, rs1, rs2, off)
    case Jal(rd, _) => JalWord(rd, off)
    case _ => 0
  }

  // ------------------------------------------------------------------ round trip

  lemma SignedMod(imm: int, half: nat)
    requires half > 0 && 0 <= imm + half && imm < half
    ensures imm % (2 * half) < 2 * half && SignExtend(imm % (2 * half), half) == imm
  {
    if imm < 0 {
      DivModUnique(imm, 2 * half, -1, imm + 2 * half);
    } else {
      DivModUnique(imm, 2 * half, 0, imm);
    }
  }

  lemma DecodeI(imm: int, rs1: reg, f3: nat, rd: reg, op: nat)
    requires SignedRange(imm, 12) && f3 < 8 && op < 128
    ensures var w := FieldsI(imm % 0x1000, rs1, f3, rd, op);
      && w < W32 && w % 128 == op && w / 0x80 % 32 == rd && w / 0x1000 % 8 == f3 && w / 0x8000 % 32 == rs1
      && ImmI(w) == imm
  {
    ShiftValues();
    hide FieldsI;
    var u: nat := imm % 0x1000;
    FieldsIAreSum(u, rs1, f3, rd, op);
    SplitFields(u / 32, u % 32, rs1, f3, rd, op);
    SignedMod(imm, 0x800);
  }

  lemma DecodeShift(k: int, rs1: reg, f3: nat, rd: reg)
    requires 0 <= k < 32 && f3 < 8
    ensures var w := FieldsI(k % 32, rs1, f3, rd, 0x13);
      && w < W32 && w % 128 == 0x13 && w / 0x80 % 32 == rd && w / 0x1000 % 8 == f3 && w / 0x8000 % 32 == rs1
      && w / 0x10_0000 % 32 == k && w / 0x200_0000 == 0
  {
    hide FieldsI;
    FieldsIAreSum(k, rs1, f3, rd, 0x13);
    SplitFields(0, k, rs1, f3, rd, 0x13);
  }

  lemma DecodeS(imm: int, rs2: reg, rs1: reg, f3: nat)
    requires SignedRange(imm, 12) && f3 < 8
    ensures var w := StoreFields(imm, rs2, rs1, f3);
      && w < W32 && w % 128 == 0x23 && w / 0x1000 % 8 == f3 && w / 0x8000 % 32 == rs1
      && w / 0x10_0000 % 32 == rs2 && ImmS(w) == imm
  {
    ShiftValues();
    hide Fields;
    var u: nat := imm % 0x1000;
    FieldsAreSum(u / 32 % 128, rs2, rs1, f3, u % 32, 0x23);
    SplitFields(u / 32 % 128, rs2, rs1, f3, u % 32, 0x23);
    hide Sum;
    SignedMod(imm, 0x800);
    StoreBits(u);
  }

  lemma StoreBits(u: nat)
    requires u < 0x1000
    ensures u / 32 % 128 * 32 + u % 32 == u
  {
  }

  lemma DecodeB(f3: nat, rs1: reg, rs2: reg, off: int)
    requires off % 2 == 0 && SignedRange(off, 13) && f3 < 2
    ensures var w := BranchWord(f3, rs1, rs2, off);
      && w < W32 && w % 128 == 0x63 && w / 0x1000 % 8 == f3 && w / 0x8000 % 32 == rs1
      && w / 0x10_0000 % 32 == rs2 && ImmB(w) == off
  {
    ShiftValues();
    hide FieldsB, ImmB, SignExtend, Sum;
    var u: nat := off % 0x2000;
    SignedMod(off, 0x1000);
    var b12, b10, b4, b11: nat := u / 0x1000 % 2, u / 32 % 64, u / 2 % 16, u / 0x800 % 2;
    BranchBits(u);
    FieldsBAreSum(b12, b10, rs2, rs1, f3, b4, b11, 0x63);
    SplitFields(b12 * 64 + b10, rs2, rs1, f3, b4 * 2 + b11, 0x63);
    BranchImm(BranchWord(f3, rs1, rs2, off), b12, b10, b4, b11);
  }

  lemma BranchImm(w: word, b12: nat, b10: nat, b4: nat, b11: nat)
    requires b12 < 2 && b10 < 64 && b4 < 16 && b11 < 2
    requires w / 0x200_0000 == b12 * 64 + b10 && w / 0x80 % 32 == b4 * 2 + b11
    ensures ImmB(w) == SignExtend(b12 * 0x1000 + b11 * 0x800 + b10 * 32 + b4 * 2, 0x1000)
  {
    BranchPlaces(w, b12, b10, b4, b11);
    hide SignExtend;
  }

  lemma BranchBits(u: nat)
    requires u < 0x2000 && u % 2 == 0
    ensures u == u / 0x1000 % 2 * 0x1000 + u / 0x800 % 2 * 0x800 + u / 32 % 64 * 32 + u / 2 % 16 * 2
  {
    var a := u / 2;
    var b := a / 16;
    var c := b / 64;
    var d := c / 2;
    DivModUnique(u, 32, b, 2 * (a % 16));
    DivModUnique(u, 0x800, c, 32 * (b % 64) + 2 * (a % 16));
    DivModUnique(u, 0x1000, d, 0x800 * (c % 2) + 32 * (b % 64) + 2 * (a % 16));
  }

  lemma BranchPlaces(w: word, b12: nat, b10: nat, b4: nat, b11: nat)
    requires b12 < 2 && b10 < 64 && b4 < 16 && b11 < 2
    requires w / 0x200_0000 == b12 * 64 + b10 && w / 0x80 % 32 == b4 * 2 + b11
    ensures w / 0x8000_0000 == b12 && w / 0x200_0000 % 64 == b10 && w / 0x80 % 2 == b11 && w / 0x100 % 16 == b4
  {
    var g, x := w / 0x200_0000, w / 0x80;
    DivModUnique(g, 64, b12, b10);
    DivModUnique(w, 0x8000_0000, b12, b10 * 0x200_0000 + w % 0x200_0000);
    DivModUnique(x, 2, x / 32 * 16 + b4, b11);
    DivModUnique(x / 2, 16, x / 32, b4);
    DivModUnique(w, 0x100, x / 2, x % 2 * 0x80 + w % 0x80);
  }

  lemma DecodeJ(rd: reg, off: int)
    requires off % 2 == 0 && SignedRange(off, 21)
    ensures var w := JalWord(rd, off);
      w < W32 && w % 128 == 0x6F && w / 0x80 % 32 == rd && ImmJ(w) == off
  {
    ShiftValues();
    hide FieldsJ;
    var u: nat := off % 0x20_0000;
    SignedMod(off, 0x10_0000);
    JalBits(u);
    FieldsJSplit(u / 0x10_0000 % 2, u / 2 % 1024, u / 0x800 % 2, u / 0x1000 % 256, rd, 0x6F);
  }

  lemma JalBits(u: nat)
    requires u < 0x20_0000 && u % 2 == 0
    ensures u == u / 0x10_0000 % 2 * 0x10_0000 + u / 0x1000 % 256 * 0x1000 + u / 0x800 % 2 * 0x800 + u / 2 % 1024 * 2
  {
    var a := u / 2;
    var b := a / 1024;
    var c := b / 2;
    var d := c / 256;
    DivModUnique(u, 0x800, b, 2 * (a % 1024));
    DivModUnique(u, 0x1000, c, 0x800 * (b % 2) + 2 * (a % 1024));
    DivModUnique(u, 0x10_0000, d, 0x1000 * (c % 256) + 0x800 * (b % 2) + 2 * (a % 1024));
  }

  /** The instruction a symbolic one stands for, its label `off` bytes away.  The twenty
      immediate bits of lui are all that is kept of its operand. */
  function Meaning<T>(i: Insn<T>, off: int): Insn<int> {
    match i
    case Lui(rd, imm) => Lui(rd, imm % 0x10_0000)
    case Addi(rd, rs1, imm) => Addi(rd, rs1, imm)
    case Xori(rd, rs1, imm) => Xori(rd, rs1, imm)
    case Andi(rd, rs1, imm) => Andi(rd, rs1, imm)
    case Slli(rd, rs1, k) => Slli(rd, rs1, k)
    case Srli(rd, rs1, k) => Srli(rd, rs1, k)
    case Lw(rd, imm, rs1) => Lw(rd, imm, rs1)
    case Sw(rs2, imm, rs1) => Sw(rs2, imm, rs1)
    case Sb(rs2, imm, rs1) => Sb(rs2, imm, rs1)
    case Add(rd, rs1, rs2) => Add(rd, rs1, rs2)
    case OrOp(rd, rs1, rs2) => OrOp(rd, rs1, rs2)
    case Sltu(rd, rs1, rs2) => Sltu(rd, rs1, rs2)
    case Dot4(rd, rs1, rs2) => Dot4(rd, rs1, rs2)
    case Jalr(rd, rs1, imm) => Jalr(rd, rs1, imm)
    case Beq(rs1, rs2, _) => Beq(rs1, rs2, off)
    case Bne(rs1, rs2, _) => Bne(rs1, rs2, off)
    case Jal(rd, _) => Jal(rd, off)
  }

  lemma RegisterFormDecodes(f7: nat, rs2: reg, rs1: reg, f3: nat, rd: reg, op: nat)
    requires f7 < 128 && f3 < 8 && op < 128
    ensures var w := Fields(f7, rs2, rs1, f3, rd, op);
      && w < W32 && w % 128 == op && w / 0x80 % 32 == rd && w / 0x1000 % 8 == f3 && w / 0x8000 % 32 == rs1
      && w / 0x10_0000 % 32 == rs2 && w / 0x200_0000 == f7
  {
    FieldsAreSum(f7, rs2, rs1, f3, rd, op);
    hide Fields;
    SplitFields(f7, rs2, rs1, f3, rd, op);
  }

  /** Every word emitted for an accepted instruction decodes to that instruction. */
  lemma PlainDecodes<T>(i: Insn<T>)
    requires Encodable(i) && !IsJump(i)
    ensures PlainWord(i) < W32 && Decode(PlainWord(i)) == Some(Meaning(i, 0))
  {
    hide Fields, FieldsI, FieldsU, StoreFields, ImmI, ImmS, SignedRange;
    match i
    case Lui(rd, imm) => FieldsUSplit(imm % 0x10_0000, rd, 0x37);
    case Addi(rd, rs1, imm) => DecodeI(imm, rs1, 0, rd, 0x13);
    case Xori(rd, rs1, imm) => DecodeI(imm, rs1, 4, rd, 0x13);
    case Andi(rd, rs1, imm) => DecodeI(imm, rs1, 7, rd, 0x13);
    case Slli(rd, rs1, k) => DecodeShift(k, rs1, 1, rd);
    case Srli(rd, rs1, k) => DecodeShift(k, rs1, 5, rd);
    case Lw(rd, imm, rs1) => DecodeI(imm, rs1, 2, rd, 0x03);
    case Sw(rs2, imm, rs1) => DecodeS(imm, rs2, rs1, 2);
    case Sb(rs2, imm, rs1) => DecodeS(imm, rs2, rs1, 0);
    case Add(rd, rs1, rs2) => RegisterFormDecodes(0, rs2, rs1, 0, rd, 0x33);
    case OrOp(rd, rs1, rs2) => RegisterFormDecodes(0, rs2, rs1, 6, rd, 0x33);
    case Sltu(rd, rs1, rs2) => RegisterFormDecodes(0, rs2, rs1, 3, rd, 0x33);
    case Dot4(rd, rs1, rs2) => RegisterFormDecodes(0x2A, rs2, rs1, 0, rd, 0x0B);
    case Jalr(rd, rs1, imm) => DecodeI(imm, rs1, 0, rd, 0x67);
  }

  /** Every resolved jump decodes to the jump with its byte distance. */
  lemma JumpDecodes<T>(i: Insn<T>, off: int)
    requires IsJump(i) && InReach(i, off)
    ensures JumpWord(i, off) < W32 && Decode(JumpWord(i, off)) == Some(Meaning(i, off))
  {
    hide BranchWord, JalWord, ImmB, ImmJ, SignedRange;
    match i
    case Beq(rs1, rs2, _) => DecodeB(0, rs1, rs2, off);
    case Bne(rs1, rs2, _) => DecodeB(1, rs1, rs2, off);
    case Jal(rd, _) => DecodeJ(rd, off);
  }
}
