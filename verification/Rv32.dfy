/** The RV32I subset the boot ROM generator emits: instruction words, their decoding
    (RISC-V Unprivileged ISA, version 20191213, sections 2.2 to 2.6), and execution on
    the memory map of the SoC. */
module Rv32 {
  import opened Bits
  import opened UnifiedMem
  import EmuSpec

  type reg = r: int | 0 <= r < 32

  const ZERO: reg := 0
  const T0: reg := 5
  const T1: reg := 6
  const T2: reg := 7
  const S0: reg := 8
  const A4: reg := 14
  const A5: reg := 15
  const S3: reg := 19
  const S5: reg := 21
  const S6: reg := 22
  const S7: reg := 23
  const S8: reg := 24
  const S9: reg := 25
  const S10: reg := 26
  const S11: reg := 27
  const T3: reg := 28
  const T4: reg := 29
  const T5: reg := 30
  const T6: reg := 31

  /** An instruction whose jump targets have type T: label names in a program under
      construction, byte offsets in a decoded word. */
  datatype Insn<T> =
    | Lui(rd: reg, imm20: int)
    | Addi(rd: reg, rs1: reg, imm: int)
    | Xori(rd: reg, rs1: reg, imm: int)
    | Andi(rd: reg, rs1: reg, imm: int)
    | Slli(rd: reg, rs1: reg, shamt: int)
    | Srli(rd: reg, rs1: reg, shamt: int)
    | Lw(rd: reg, imm: int, rs1: reg)
    | Sw(rs2: reg, imm: int, rs1: reg)
    | Sb(rs2: reg, imm: int, rs1: reg)
    | Add(rd: reg, rs1: reg, rs2: reg)
    | OrOp(rd: reg, rs1: reg, rs2: reg)
    | Sltu(rd: reg, rs1: reg, rs2: reg)
    | Dot4(rd: reg, rs1: reg, rs2: reg)
    | Jalr(rd: reg, rs1: reg, imm: int)
    | Beq(rs1: reg, rs2: reg, to: T)
    | Bne(rs1: reg, rs2: reg, to: T)
    | Jal(rd: reg, to: T)

  predicate SignedRange(value: int, bits: nat)
    requires bits > 0
  {
    0 <= value + Pow2(bits - 1) && value < Pow2(bits - 1)
  }

  // ------------------------------------------------------------------ decoding

  function SignExtend(n: nat, half: nat): int {
    if n >= half then n - 2 * half else n
  }

  datatype Option<T> = None | Some(value: T)

  function ImmI(w: word): int { SignExtend(w / 0x10_0000, 0x800) }

  function ImmS(w: word): int { SignExtend(w / 0x200_0000 * 32 + w / 0x80 % 32, 0x800) }

  /** imm[12|10:5] in the top seven bits, imm[4:1|11] in bits 11 to 7. */
  function ImmB(w: word): int {
    SignExtend(w / 0x8000_0000 * 0x1000 + w / 0x80 % 2 * 0x800 + w / 0x200_0000 % 64 * 32 + w / 0x100 % 16 * 2, 0x1000)
  }

  /** imm[20|10:1|11|19:12] in the top twenty bits. */
  function ImmJ(w: word): int {
    SignExtend(w / 0x8000_0000 * 0x10_0000 + w / 0x1000 % 256 * 0x1000 + w / 0x10_0000 % 2 * 0x800
               + w / 0x20_0000 % 1024 * 2, 0x10_0000)
  }

  function Decode(w: word): Option<Insn<int>> {
    var opcode, rd, f3: nat := w % 128, w / 0x80 % 32, w / 0x1000 % 8;
    var rs1, rs2, f7: nat := w / 0x8000 % 32, w / 0x10_0000 % 32, w / 0x200_0000;
    if opcode == 0x37 then Some(Lui(rd, w / 0x1000))
    else if opcode == 0x13 then
      if f3 == 0 then Some(Addi(rd, rs1, ImmI(w)))
      else if f3 == 4 then Some(Xori(rd, rs1, ImmI(w)))
      else if f3 == 7 then Some(Andi(rd, rs1, ImmI(w)))
      else if f3 == 1 && f7 == 0 then Some(Slli(rd, rs1, rs2))
      else if f3 == 5 && f7 == 0 then Some(Srli(rd, rs1, rs2))
      else None
    else if opcode == 0x03 then if f3 == 2 then Some(Lw(rd, ImmI(w), rs1)) else None
    else if opcode == 0x23 then
      if f3 == 2 then Some(Sw(rs2, ImmS(w), rs1)) else if f3 == 0 then Some(Sb(rs2, ImmS(w), rs1)) else None
    else if opcode == 0x33 then
      if f7 != 0 then None
      else if f3 == 0 then Some(Add(rd, rs1, rs2))
      else if f3 == 6 then Some(OrOp(rd, rs1, rs2))
      else if f3 == 3 then Some(Sltu(rd, rs1, rs2))
      else None
    else if opcode == 0x0B then if f3 == 0 && f7 == 0x2A then Some(Dot4(rd, rs1, rs2)) else None
    else if opcode == 0x67 then if f3 == 0 then Some(Jalr(rd, rs1, ImmI(w))) else None
    else if opcode == 0x63 then
      if f3 == 0 then Some(Beq(rs1, rs2, ImmB(w))) else if f3 == 1 then Some(Bne(rs1, rs2, ImmB(w))) else None
    else if opcode == 0x6F then Some(Jal(rd, ImmJ(w)))
    else None
  }

  // ------------------------------------------------------------------ the machine

  const SRAM_BASE: word := 0x1000_0000
  const SRAM_BYTES: nat := 0x1_0000
  const UART_BASE: word := 0x2000_0000
  const SPI_BASE: word := 0x2000_3000

  /** The SPI master as software sees it; `busy` counts the status reads still to answer
      busy, and the byte on its way shows in `rx` only when they have been answered. */
  datatype Spi = Spi(divider: half, hold: bool, done: bool, busy: nat, incoming: byte, rx: byte, taken: nat)

  /** `printed` are the bytes written to the UART data register. */
  datatype Bus = Bus(sram: seq<byte>, printed: seq<byte>, spi: Spi)

  /** What the card answers: its n-th byte, and how long that transfer stays busy. */
  datatype Card = Card(data: nat -> byte, delay: nat -> nat)

  datatype Machine = Machine(regs: seq<word>, pc: word, bus: Bus)

  predicate Sane(m: Machine) {
    |m.regs| == 32 && m.regs[0] == 0 && |m.bus.sram| == SRAM_BYTES
  }

  function Wrap(n: int): word { n % W32 }

  function Get(m: Machine, r: reg): word
    requires |m.regs| == 32
  {
    m.regs[r]
  }

  /** Register 0 stays zero. */
  function Set(m: Machine, r: reg, v: word): (n: Machine)
    requires |m.regs| == 32
    ensures |n.regs| == 32 && n.bus == m.bus && n.pc == m.pc
  {
    if r == 0 then m else m.(regs := m.regs[r := v])
  }

  predicate InSram(addr: word, bytes: nat) {
    SRAM_BASE <= addr && addr + bytes <= SRAM_BASE + SRAM_BYTES
  }

  function SpiStatus(s: Spi): word {
    s.divider * 0x1_0000 + (if s.done then 8 else 0) + (if s.busy > 0 then 4 else 0) + if s.hold then 2 else 0
  }

  /** A status read lets a transfer under way progress. */
  function Polled(s: Spi): Spi {
    if s.busy == 0 then s
    else if s.busy == 1 then s.(busy := 0, done := true, rx := s.incoming)
    else s.(busy := s.busy - 1)
  }

  function LoadValue(b: Bus, addr: word): word
    requires |b.sram| == SRAM_BYTES
  {
    if InSram(addr, 4) then Read32(b.sram, addr - SRAM_BASE)
    else if addr == SPI_BASE then SpiStatus(b.spi)
    else if addr == SPI_BASE + 4 then b.spi.rx
    else if addr == UART_BASE + 4 then 0xFFFF_FFFF
    else 0
  }

  /** Only the SPI status register changes by being read. */
  function Loaded(b: Bus, addr: word): Bus {
    if addr == SPI_BASE then b.(spi := Polled(b.spi)) else b
  }

  function StoreWord(b: Bus, addr: word, v: word): (r: Bus)
    requires |b.sram| == SRAM_BYTES
    ensures |r.sram| == SRAM_BYTES
  {
    if InSram(addr, 4) then b.(sram := Write32(b.sram, addr - SRAM_BASE, v))
    else if addr == UART_BASE + 4 then b.(printed := b.printed + [v % 256])
    else b
  }

  function Arrive(s: Spi, delay: nat): Spi {
    if delay == 0 then s.(busy := 0, done := true, rx := s.incoming) else s.(busy := delay, done := false)
  }

  /** Writing the control byte with bit 0 set starts the next transfer unless one is under way. */
  function SpiControl(s: Spi, v: byte, card: Card): Spi {
    var h := s.(hold := v / 2 % 2 == 1, done := s.done && v / 8 % 2 == 0);
    if v % 2 == 1 && s.busy == 0 then
      Arrive(h.(incoming := card.data(s.taken), taken := s.taken + 1), card.delay(s.taken))
    else h
  }

  function StoreByte(b: Bus, addr: word, v: byte, card: Card): (r: Bus)
    requires |b.sram| == SRAM_BYTES
    ensures |r.sram| == SRAM_BYTES
  {
    if InSram(addr, 1) then b.(sram := b.sram[addr - SRAM_BASE := v])
    else if addr == SPI_BASE then b.(spi := SpiControl(b.spi, v, card))
    else b
  }

  // ------------------------------------------------------------------ bitwise results stay words

  lemma AndSmall(a: nat, b: nat)
    ensures And(a, b) <= a
  {
    if a == 0 || b == 0 {
    } else {
      AndSmall(a / 2, b / 2);
    }
  }

  lemma {:induction false} XorBound(a: nat, b: nat, k: nat)
    requires a < Pow2(k) && b < Pow2(k)
    ensures Xor(a, b) < Pow2(k)
    decreases k
  {
    if k == 0 {
    } else {
      XorBound(a / 2, b / 2, k - 1);
    }
  }

  function AndWord(a: word, b: word): word {
    AndSmall(a, b);
    And(a, b)
  }

  function OrWord(a: word, b: word): word {
    Pow2Values();
    OrBound(a, b, 32);
    Or(a, b)
  }

  function XorWord(a: word, b: word): word {
    Pow2Values();
    XorBound(a, b, 32);
    Xor(a, b)
  }

  // ------------------------------------------------------------------ execution

  /** Straight-line instructions: everything but the program counter. */
  function Effect<T>(i: Insn<T>, m: Machine, card: Card): (n: Machine)
    requires Sane(m)
    ensures Sane(n) && n.pc == m.pc
  {
    match i
    case Lui(rd, imm) => Set(m, rd, Wrap(imm * 0x1000))
    case Addi(rd, rs1, imm) => Set(m, rd, Wrap(Get(m, rs1) + imm))
    case Xori(rd, rs1, imm) => Set(m, rd, XorWord(Get(m, rs1), Wrap(imm)))
    case Andi(rd, rs1, imm) => Set(m, rd, AndWord(Get(m, rs1), Wrap(imm)))
    case Slli(rd, rs1, k) => if k < 0 then m else Set(m, rd, Wrap(Get(m, rs1) * Pow2(k)))
    case Srli(rd, rs1, k) => if k < 0 then m else Set(m, rd, Wrap(Get(m, rs1) / Pow2(k)))
    case Lw(rd, imm, rs1) =>
      var addr := Wrap(Get(m, rs1) + imm);
      Set(m.(bus := Loaded(m.bus, addr)), rd, LoadValue(m.bus, addr))
    case Sw(rs2, imm, rs1) => m.(bus := StoreWord(m.bus, Wrap(Get(m, rs1) + imm), Get(m, rs2)))
    case Sb(rs2, imm, rs1) => m.(bus := StoreByte(m.bus, Wrap(Get(m, rs1) + imm), Get(m, rs2) % 256, card))
    case Add(rd, rs1, rs2) => Set(m, rd, Wrap(Get(m, rs1) + Get(m, rs2)))
    case OrOp(rd, rs1, rs2) => Set(m, rd, OrWord(Get(m, rs1), Get(m, rs2)))
    case Sltu(rd, rs1, rs2) => Set(m, rd, if Get(m, rs1) < Get(m, rs2) then 1 else 0)
    case Dot4(rd, rs1, rs2) => Set(m, rd, Wrap(EmuSpec.Dot4(Get(m, rs1), Get(m, rs2))))
    case Jalr(rd, _, _) => Set(m, rd, Wrap(m.pc + 4))
    case Jal(rd, _) => Set(m, rd, Wrap(m.pc + 4))
    case Beq(_, _, _) => m
    case Bne(_, _, _) => m
  }

  /** Where control goes, given where the instruction's own target is. */
  function NextPc<T>(i: Insn<T>, m: Machine, target: word): word
    requires Sane(m)
  {
    match i
    case Beq(rs1, rs2, _) => if Get(m, rs1) == Get(m, rs2) then target else Wrap(m.pc + 4)
    case Bne(rs1, rs2, _) => if Get(m, rs1) != Get(m, rs2) then target else Wrap(m.pc + 4)
    case Jal(_, _) => target
    case Jalr(_, rs1, imm) => Wrap(Get(m, rs1) + imm) / 2 * 2
    case _ => Wrap(m.pc + 4)
  }

  /** One instruction of machine code: jumps are relative to the program counter. */
  function ExecDecoded(i: Insn<int>, m: Machine, card: Card): (n: Machine)
    requires Sane(m)
    ensures Sane(n)
  {
    var target := match i
      case Beq(_, _, off) => Wrap(m.pc + off)
      case Bne(_, _, off) => Wrap(m.pc + off)
      case Jal(_, off) => Wrap(m.pc + off)
      case _ => 0;
    Effect(i, m, card).(pc := NextPc(i, m, target))
  }

  /** The word at the program counter of code loaded at `base`, if there is one. */
  function Index(pc: word, base: word, n: nat): Option<nat> {
    if pc >= base && (pc - base) % 4 == 0 && (pc - base) / 4 < n then Some((pc - base) / 4) else None
  }

  /** One step of a program in memory; leaving it, or an unknown word, stops the machine. */
  function Step(words: seq<word>, base: word, m: Machine, card: Card): (n: Machine)
    requires Sane(m)
    ensures Sane(n)
  {
    match Index(m.pc, base, |words|)
    case None => m
    case Some(k) =>
      match Decode(words[k])
      case None => m
      case Some(i) => ExecDecoded(i, m, card)
  }

  function Run(words: seq<word>, base: word, m: Machine, card: Card, n: nat): (r: Machine)
    requires Sane(m)
    ensures Sane(r)
    decreases n
  {
    if n == 0 then m else Run(words, base, Step(words, base, m, card), card, n - 1)
  }
}
