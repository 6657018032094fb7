/** The hexadecimal printing macro of the boot ROM generator, executed. */
module PutHex {
  import opened Bits
  import opened Rv32
  import opened Encoding
  import opened Assembler
  import opened AsmRun

  function DigitName(prefix: string, shift: nat): string { prefix + "_digit_" + Decimal(shift) }

  function DoneName(prefix: string, shift: nat): string { prefix + "_digit_done_" + Decimal(shift) }

  /** One pass of the loop over shift amounts. */
  function PutHexDigit(src: reg, prefix: string, shift: nat): seq<Call> {
    var digit, done := DigitName(prefix, shift), DoneName(prefix, shift);
    [ Emit(Srli(T0, src, shift)),
      Emit(Andi(T0, T0, 0xF)),
      Load(A4, 10),
      Emit(Sltu(A5, T0, A4)),
      Emit(Bne(A5, ZERO, digit)),
      Emit(Addi(T0, T0, 55)),
      Emit(Jal(ZERO, done)),
      Mark(digit),
      Emit(Addi(T0, T0, 48)),
      Mark(done),
      Emit(Sw(T0, 4, S0)) ]
  }

  /** The digits at shifts 4 * (k - 1), ..., 4, 0. */
  function PutHexDigits(src: reg, prefix: string, k: nat): seq<Call> {
    if k == 0 then [] else PutHexDigit(src, prefix, 4 * (k - 1)) + PutHexDigits(src, prefix, k - 1)
  }

  function PutHexWord(src: reg, prefix: string): seq<Call> { PutHexDigits(src, prefix, 8) }

  function PutHexByte(src: reg, prefix: string): seq<Call> { PutHexDigits(src, prefix, 2) }

  // ------------------------------------------------------------------ what is to be printed

  function HexChar(d: nat): byte
    requires d < 16
  {
    if d < 10 then 48 + d else 55 + d
  }

  function HexText(v: nat, k: nat): (s: seq<byte>)
    ensures |s| == k
  {
    if k == 0 then [] else [HexChar(v / Pow2(4 * (k - 1)) % 16)] + HexText(v, k - 1)
  }

  /** '0'..'9' or 'A'..'F'. */
  predicate IsUpperHex(c: byte) { 48 <= c <= 57 || 65 <= c <= 70 }

  function HexValue(c: byte): int { if c <= 57 then c - 48 else c - 55 }

  /** A numeral read as a number: the first digit weighs most. */
  function ParseHex(s: seq<byte>): int {
    if s == [] then 0 else 16 * ParseHex(s[..|s| - 1]) + HexValue(s[|s| - 1])
  }

  lemma {:induction false} ParseFront(c: byte, s: seq<byte>)
    ensures ParseHex([c] + s) == HexValue(c) * Pow2(4 * |s|) + ParseHex(s)
  {
    hide HexValue;
    if s == [] {
      assert ([c] + s)[..0] == [];
    } else {
      var n := |s| - 1;
      assert ([c] + s)[..|s|] == [c] + s[..n];
      ParseFront(c, s[..n]);
      Pow2Add(4 * n, 4);
      Pow2Values();
      ShiftedDigit(HexValue(c), Pow2(4 * n));
      assert 4 * |s| == 4 * n + 4;
    }
  }

  lemma ShiftedDigit(d: int, p: nat)
    ensures 16 * (d * p) == d * (p * 16)
  {
  }

  lemma NextDigit(v: nat, p: nat)
    requires p > 0
    ensures v / p % 16 * p + v % p == v % (p * 16)
  {
    var q := v / p;
    assert q == q / 16 * 16 + q % 16;
    assert v == q / 16 * (p * 16) + (q % 16 * p + v % p);
    MulMonotone(q % 16, 15, p);
    DivModUnique(v, p * 16, q / 16, q % 16 * p + v % p);
  }

  lemma CharValue(d: nat)
    requires d < 16
    ensures HexValue(HexChar(d)) == d && IsUpperHex(HexChar(d))
  {
  }

  /** k digits are upper-case hex and read back as the value's low 4k bits. */
  lemma {:induction false} HexTextParses(v: nat, k: nat)
    ensures ParseHex(HexText(v, k)) == v % Pow2(4 * k)
    ensures forall c | c in HexText(v, k) :: IsUpperHex(c)
  {
    if k == 0 {
      assert Pow2(0) == 1;
    } else {
      hide Pow2, ParseHex, HexChar, HexValue, IsUpperHex;
      var p, rest := Pow2(4 * (k - 1)), HexText(v, k - 1);
      var d := v / p % 16;
      HexTextParses(v, k - 1);
      CharValue(d);
      ParseFront(HexChar(d), rest);
      NextDigit(v, p);
      NextPower(k);
      assert HexText(v, k) == [HexChar(d)] + rest;
    }
  }

  lemma NextPower(k: nat)
    requires k > 0
    ensures Pow2(4 * k) == Pow2(4 * (k - 1)) * 16
  {
    Pow2Add(4 * (k - 1), 4);
    Pow2Values();
    assert 4 * k == 4 * (k - 1) + 4;
  }

  // ------------------------------------------------------------------ execution

  const SCRATCH: set<reg> := {T0, A4, A5}

  ghost predicate Printed(m: Machine, n: Machine, text: seq<byte>) {
    && Sane(m) && Sane(n)
    && Keeps(m, n, SCRATCH)
    && n.bus == m.bus.(printed := m.bus.printed + text)
  }

  lemma DigitMask(v: word)
    ensures AndWord(v, Wrap(0xF)) == v % 16
  {
    Pow2Values();
    AndLowMask(v, 4);
  }

  lemma DigitSplit(e: Env, p: nat, m: Machine, src: reg, prefix: string, shift: nat) returns (n: Machine)
    requires Loadable(e) && Placed(e, p, PutHexDigit(src, prefix, shift)) && Sane(m)
    ensures Leads(e, p, m, p + 4, n) && Sane(n) && Keeps(m, n, SCRATCH) && n.bus == m.bus
    ensures var d := Get(m, src) / Pow2(shift) % 16;
      Get(n, T0) == d && Get(n, A4) == 10 && Get(n, A5) == if d < 10 then 1 else 0
  {
    hide Leads, Loadable, DigitName, DoneName, AndWord, Pow2;
    var macro := PutHexDigit(src, prefix, shift);
    LeadsRefl(e, p, m);
    var m1 := Do(e, p, m, p, macro, 0, m);
    Quotient(Get(m, src), Pow2(shift));
    var m2 := Do(e, p, m, p, macro, 1, m1);
    DigitMask(Get(m1, T0));
    var m3 := Do(e, p, m, p, macro, 2, m2);
    n := Do(e, p, m, p, macro, 3, m3);
  }

  lemma DigitChoose(e: Env, p: nat, m: Machine, p0: nat, m0: Machine, src: reg, prefix: string, shift: nat, d: nat)
    returns (n: Machine)
    requires Loadable(e) && Placed(e, p, PutHexDigit(src, prefix, shift)) && Leads(e, p0, m0, p + 4, m)
    requires d < 16 && Sane(m) && Get(m, T0) == d && Get(m, A5) == if d < 10 then 1 else 0
    ensures Leads(e, p0, m0, p + 9, n) && Sane(n) && Keeps(m, n, {T0}) && n.bus == m.bus && Get(n, T0) == HexChar(d)
  {
    hide Leads, Loadable, DigitName, DoneName, MarkedAt;
    var macro := PutHexDigit(src, prefix, shift);
    Marks(e, p, src, prefix, shift);
    Jump(e, p0, m0, p, macro, 4, m, p + 7);
    if d < 10 {
      var m5 := Do(e, p0, m0, p, macro, 7, m);
      n := Do(e, p0, m0, p, macro, 8, m5);
    } else {
      n := Do(e, p0, m0, p, macro, 5, m);
      Jump(e, p0, m0, p, macro, 6, n, p + 9);
    }
  }

  /** What a digit leaves in the scratch registers. */
  predicate Leftover(n: Machine, d: nat) {
    Sane(n) && d < 16 && Get(n, T0) == HexChar(d) && Get(n, A4) == 10 && Get(n, A5) == if d < 10 then 1 else 0
  }

  lemma DigitPrints(e: Env, p: nat, m: Machine, src: reg, prefix: string, shift: nat) returns (n: Machine)
    requires Loadable(e) && Placed(e, p, PutHexDigit(src, prefix, shift)) && Sane(m)
    requires Get(m, S0) == UART_BASE
    ensures Leads(e, p, m, p + 11, n) && Printed(m, n, [HexChar(Get(m, src) / Pow2(shift) % 16)])
    ensures Leftover(n, Get(m, src) / Pow2(shift) % 16)
  {
    hide Leads, Loadable, DigitName, DoneName, Exec, Pow2;
    var macro := PutHexDigit(src, prefix, shift);
    var d: nat := Get(m, src) / Pow2(shift) % 16;
    var m1 := DigitSplit(e, p, m, src, prefix, shift);
    var m2 := DigitChoose(e, p, m1, p, m, src, prefix, shift, d);
    var m3 := Do(e, p, m, p, macro, 9, m2);
    assert m3 == m2 by { MarkStays(macro[9], m2, e.card); }
    n := Do(e, p, m, p, macro, 10, m3);
    UartStore(m2, T0, e.card);
  }

  lemma Quotient(v: word, d: nat)
    requires d > 0
    ensures 0 <= v / d < W32
  {
    assert v / d * d <= v;
    if v / d > v { MulMonotone(v + 1, v / d, d); }
  }

  lemma Marks(e: Env, p: nat, src: reg, prefix: string, shift: nat)
    requires Placed(e, p, PutHexDigit(src, prefix, shift))
    ensures MarkedAt(e, p + 7, PutHexDigit(src, prefix, shift)[4].i.to)
    ensures MarkedAt(e, p + 9, PutHexDigit(src, prefix, shift)[6].i.to)
  {
    hide DigitName, DoneName;
    var macro := PutHexDigit(src, prefix, shift);
    assert e.calls[p + 7] == macro[7] && e.calls[p + 9] == macro[9];
  }

  lemma {:induction false} DigitsPrint(e: Env, p: nat, m: Machine, src: reg, prefix: string, k: nat)
    returns (n: Machine)
    requires Loadable(e) && Placed(e, p, PutHexDigits(src, prefix, k)) && Sane(m)
    requires Get(m, S0) == UART_BASE && src !in SCRATCH
    ensures Leads(e, p, m, p + |PutHexDigits(src, prefix, k)|, n) && Printed(m, n, HexText(Get(m, src), k))
    decreases k
  {
    hide Leads, Loadable, Placed, PutHexDigit, Printed, HexChar, Pow2;
    if k == 0 {
      PlacedFits(e, p, []);
      LeadsRefl(e, p, m);
      n := m;
      PrintedNone(m);
    } else {
      var first, rest := PutHexDigit(src, prefix, 4 * (k - 1)), PutHexDigits(src, prefix, k - 1);
      DigitLength(src, prefix, 4 * (k - 1));
      PlacedSplit(e, p, first, rest);
      var s := DigitPrints(e, p, m, src, prefix, 4 * (k - 1));
      PrintedKeeps(m, s, [HexChar(Get(m, src) / Pow2(4 * (k - 1)) % 16)], src);
      n := DigitsPrint(e, p + 11, s, src, prefix, k - 1);
      LeadsTrans(e, p, m, p + 11, s, p + 11 + |rest|, n);
      PrintedJoin(m, s, n, [HexChar(Get(m, src) / Pow2(4 * (k - 1)) % 16)], HexText(Get(m, src), k - 1));
    }
  }

  lemma DigitLength(src: reg, prefix: string, shift: nat)
    ensures |PutHexDigit(src, prefix, shift)| == 11
  {
  }

  lemma PrintedNone(m: Machine)
    requires Sane(m)
    ensures Printed(m, m, [])
  {
    assert m.bus.printed + [] == m.bus.printed;
  }

  lemma PrintedKeeps(m: Machine, n: Machine, text: seq<byte>, r: reg)
    requires Printed(m, n, text) && r !in SCRATCH
    ensures Sane(n) && Get(n, r) == Get(m, r) && Get(n, S0) == Get(m, S0)
  {
    assert S0 !in SCRATCH;
  }

  lemma PrintedJoin(m: Machine, s: Machine, n: Machine, a: seq<byte>, b: seq<byte>)
    requires Printed(m, s, a) && Printed(s, n, b)
    ensures Printed(m, n, a + b)
  {
    assert m.bus.printed + a + b == m.bus.printed + (a + b);
  }

  /** Running the machine code of k digits, wherever it stands in an assembled program. */
  lemma DigitsInMachineCode(e: Env, p: nat, m: Machine, src: reg, prefix: string, k: nat)
    returns (n: Machine, steps: nat, text: seq<byte>)
    requires Assembled(e) && Placed(e, p, PutHexDigits(src, prefix, k)) && Sane(m) && m.pc == PcAt(e, p)
    requires Get(m, S0) == UART_BASE && src !in SCRATCH
    ensures p + |PutHexDigits(src, prefix, k)| <= |e.calls|
    ensures Run(Words(e), e.base, m, e.card, steps) == n
    ensures n.pc == PcAt(e, p + |PutHexDigits(src, prefix, k)|) && Printed(m, n, text)
    ensures |text| == k && (forall c | c in text :: IsUpperHex(c)) && ParseHex(text) == Get(m, src) % Pow2(4 * k)
  {
    hide PcAt, Words, Accepted, AllResolvable, CodeOf, LabelsOf, PutHexDigits, HexText, Placed, Leads, Run;
    hide ParseHex, IsUpperHex, Pow2;
    PlacedFits(e, p, PutHexDigits(src, prefix, k));
    var s := DigitsPrint(e, p, m, src, prefix, k);
    steps := LeadsInMachineCode(e, p, m, p + |PutHexDigits(src, prefix, k)|, s);
    n := s.(pc := PcAt(e, p + |PutHexDigits(src, prefix, k)|));
    text := HexText(Get(m, src), k);
    HexTextParses(Get(m, src), k);
  }

  /** Running the machine code of put_hex_word, wherever it stands in an assembled program,
      on any register but its scratch registers prints exactly eight upper-case digits that
      read back as the register's value, and changes no other register, memory or device. */
  lemma PutHexWordPrints(e: Env, p: nat, m: Machine, src: reg, prefix: string)
    returns (n: Machine, steps: nat, text: seq<byte>)
    requires Assembled(e) && Placed(e, p, PutHexWord(src, prefix)) && Sane(m) && m.pc == PcAt(e, p)
    requires Get(m, S0) == UART_BASE && src !in SCRATCH
    ensures p + |PutHexWord(src, prefix)| <= |e.calls|
    ensures Run(Words(e), e.base, m, e.card, steps) == n
    ensures n.pc == PcAt(e, p + |PutHexWord(src, prefix)|) && Printed(m, n, text)
    ensures |text| == 8 && (forall c | c in text :: IsUpperHex(c)) && ParseHex(text) == Get(m, src)
  {
    hide PcAt, Words, Assembled, PutHexDigits, Placed, Run, ParseHex, IsUpperHex, Printed;
    n, steps, text := DigitsInMachineCode(e, p, m, src, prefix, 8);
    Pow2Values();
  }

  /** The same of put_hex_byte: two digits, of the low byte. */
  lemma PutHexBytePrints(e: Env, p: nat, m: Machine, src: reg, prefix: string)
    returns (n: Machine, steps: nat, text: seq<byte>)
    requires Assembled(e) && Placed(e, p, PutHexByte(src, prefix)) && Sane(m) && m.pc == PcAt(e, p)
    requires Get(m, S0) == UART_BASE && src !in SCRATCH
    ensures p + |PutHexByte(src, prefix)| <= |e.calls|
    ensures Run(Words(e), e.base, m, e.card, steps) == n
    ensures n.pc == PcAt(e, p + |PutHexByte(src, prefix)|) && Printed(m, n, text)
    ensures |text| == 2 && (forall c | c in text :: IsUpperHex(c)) && ParseHex(text) == Get(m, src) % 256
  {
    hide PcAt, Words, Assembled, PutHexDigits, Placed, Run, ParseHex, IsUpperHex, Printed;
    n, steps, text := DigitsInMachineCode(e, p, m, src, prefix, 2);
    Pow2Values();
  }

  // ------------------------------------------------------------------ scratch registers as source

  /** What a scratch register holds after a digit 0 has been printed. */
  function AfterZero(src: reg): word { if src == T0 then 48 else if src == A4 then 10 else 1 }

  lemma AfterZeroDigits(src: reg)
    requires src in SCRATCH
    ensures forall j: nat | j >= 2 :: AfterZero(src) / Pow2(4 * j) % 16 == 0
    ensures AfterZero(src) / Pow2(4) % 16 == if src == T0 then 3 else 0
  {
    Pow2Values();
    forall j: nat | j >= 2 ensures AfterZero(src) / Pow2(4 * j) % 16 == 0 {
      Pow2Add(8, 4 * j - 8);
      assert Pow2(4 * j) == 0x100 * Pow2(4 * j - 8) >= 0x100;
      DivModUnique(AfterZero(src), Pow2(4 * j), 0, AfterZero(src));
    }
  }

  /** From the value 0, or what a zero digit leaves, the digits down to shift 8 are zeros. */
  lemma {:induction false} ZeroDigits(e: Env, p: nat, m: Machine, src: reg, prefix: string, k: nat)
    returns (n: Machine, text: seq<byte>)
    requires Loadable(e) && Placed(e, p, PutHexDigits(src, prefix, k)) && Sane(m) && k >= 3
    requires Get(m, S0) == UART_BASE && src in SCRATCH && Get(m, src) in {0, AfterZero(src)}
    ensures Leads(e, p, m, p + |PutHexDigits(src, prefix, k)|, n) && Printed(m, n, text) && |text| == k
    ensures 0 < HexValue(text[k - 1]) < 16
    decreases k
  {
    hide Leads, Loadable, Placed, PutHexDigit, Printed, Pow2;
    var first, rest := PutHexDigit(src, prefix, 4 * (k - 1)), PutHexDigits(src, prefix, k - 1);
    DigitLength(src, prefix, 4 * (k - 1));
    PlacedSplit(e, p, first, rest);
    var s := DigitPrints(e, p, m, src, prefix, 4 * (k - 1));
    AfterZeroDigits(src);
    assert Get(m, src) / Pow2(4 * (k - 1)) % 16 == 0;
    StillUart(m, s, [48]);
    var tail: seq<byte>;
    if k == 3 {
      n, tail := LastTwo(e, p + 11, s, src, prefix);
    } else {
      n, tail := ZeroDigits(e, p + 11, s, src, prefix, k - 1);
    }
    LeadsTrans(e, p, m, p + 11, s, p + 11 + |rest|, n);
    text := [48] + tail;
    PrintedJoin(m, s, n, [48], tail);
  }

  lemma StillUart(m: Machine, n: Machine, text: seq<byte>)
    requires Printed(m, n, text)
    ensures Sane(n) && Get(n, S0) == Get(m, S0)
  {
    assert S0 !in SCRATCH;
  }

  /** The last two digits then show the register's own leftovers: 33, 0A or 01. */
  lemma LastTwo(e: Env, p: nat, m: Machine, src: reg, prefix: string) returns (n: Machine, text: seq<byte>)
    requires Loadable(e) && Placed(e, p, PutHexDigits(src, prefix, 2)) && Sane(m)
    requires Get(m, S0) == UART_BASE && src in SCRATCH && Get(m, src) == AfterZero(src)
    ensures Leads(e, p, m, p + |PutHexDigits(src, prefix, 2)|, n) && Printed(m, n, text) && |text| == 2
    ensures 0 < HexValue(text[1]) < 16
  {
    hide Leads, Loadable, Placed, PutHexDigit, Printed, Pow2, HexChar;
    var first, second := PutHexDigit(src, prefix, 4), PutHexDigit(src, prefix, 0);
    DigitLength(src, prefix, 4);
    DigitLength(src, prefix, 0);
    assert PutHexDigits(src, prefix, 2) == first + second by { TwoDigits(src, prefix); }
    PlacedSplit(e, p, first, second);
    var s := DigitPrints(e, p, m, src, prefix, 4);
    AfterZeroDigits(src);
    var d: nat := AfterZero(src) / Pow2(4) % 16;
    StillUart(m, s, [HexChar(d)]);
    n := DigitPrints(e, p + 11, s, src, prefix, 0);
    LeadsTrans(e, p, m, p + 11, s, p + 22, n);
    var c: nat := Get(s, src) / Pow2(0) % 16;
    text := [HexChar(d)] + [HexChar(c)];
    PrintedJoin(m, s, n, [HexChar(d)], [HexChar(c)]);
    LastDigit(s, src, d);
  }

  lemma TwoDigits(src: reg, prefix: string)
    ensures PutHexDigits(src, prefix, 2) == PutHexDigit(src, prefix, 4) + PutHexDigit(src, prefix, 0)
  {
    hide PutHexDigit;
    assert PutHexDigits(src, prefix, 0) == [];
    assert PutHexDigits(src, prefix, 1) == PutHexDigit(src, prefix, 0) + [];
  }

  lemma LastDigit(s: Machine, src: reg, d: nat)
    requires src in SCRATCH && Leftover(s, d) && d < 10 && (src == T0 ==> d == 3)
    ensures var c: nat := Get(s, src) / Pow2(0) % 16; 0 < HexValue(HexChar(c)) < 16
  {
    assert Pow2(0) == 1;
  }

  /** The restriction on the source is needed for every scratch register: holding 0, it is
      not printed as a numeral of its value. */
  lemma ScratchSourceFails(e: Env, p: nat, m: Machine, src: reg, prefix: string)
    returns (n: Machine, steps: nat, text: seq<byte>)
    requires Assembled(e) && Placed(e, p, PutHexWord(src, prefix)) && Sane(m) && m.pc == PcAt(e, p)
    requires Get(m, S0) == UART_BASE && src in SCRATCH && Get(m, src) == 0
    ensures p + |PutHexWord(src, prefix)| <= |e.calls|
    ensures Run(Words(e), e.base, m, e.card, steps) == n && n.pc == PcAt(e, p + |PutHexWord(src, prefix)|)
    ensures Printed(m, n, text) && |text| == 8 && ParseHex(text) != Get(m, src)
  {
    hide PcAt, Words, Accepted, AllResolvable, CodeOf, LabelsOf, PutHexDigits, Placed, Leads, Run;
    PlacedFits(e, p, PutHexWord(src, prefix));
    var s;
    s, text := ZeroDigits(e, p, m, src, prefix, 8);
    steps := LeadsInMachineCode(e, p, m, p + |PutHexWord(src, prefix)|, s);
    n := s.(pc := PcAt(e, p + |PutHexWord(src, prefix)|));
  }

  // ------------------------------------------------------------------ the macro assembles

  predicate IsDigit(c: char) { '0' <= c <= '9' }

  lemma {:induction false} DecimalInjective(a: nat, b: nat)
    requires Decimal(a) == Decimal(b)
    ensures a == b
  {
    DecimalShape(a);
    DecimalShape(b);
    if a < 10 || b < 10 {
    } else {
      var x, y := Decimal(a), Decimal(b);
      assert x[..|x| - 1] == Decimal(a / 10) && y[..|y| - 1] == Decimal(b / 10);
      DecimalInjective(a / 10, b / 10);
    }
  }

  lemma {:induction false} DecimalShape(n: nat)
    ensures |Decimal(n)| >= 1 && (n >= 10 ==> |Decimal(n)| >= 2)
    ensures IsDigit(Decimal(n)[0]) && Decimal(n)[|Decimal(n)| - 1] == "0123456789"[n % 10]
    ensures forall i, j | 0 <= i < j < 10 :: "0123456789"[i] != "0123456789"[j]
  {
    if n < 10 {
    } else {
      DecimalShape(n / 10);
    }
  }

  /** Names of different digits differ, and a digit's two names differ from each other's. */
  lemma NamesDiffer(prefix: string, s: nat, t: nat)
    ensures DigitName(prefix, s) != DoneName(prefix, t)
    ensures s != t ==> DigitName(prefix, s) != DigitName(prefix, t) && DoneName(prefix, s) != DoneName(prefix, t)
  {
    hide Decimal;
    DecimalShape(s);
    DecimalShape(t);
    var p := |prefix|;
    var ds, es, dt, et := DigitName(prefix, s), DoneName(prefix, s), DigitName(prefix, t), DoneName(prefix, t);
    assert ds[p + 7] == Decimal(s)[0] && et[p + 7] == 'd';
    assert ds[p + 7..] == Decimal(s) && dt[p + 7..] == Decimal(t);
    assert es[p + 12..] == Decimal(s) && et[p + 12..] == Decimal(t);
    if Decimal(s) == Decimal(t) { DecimalInjective(s, t); }
  }

  /** The names the first k digits mark. */
  predicate NameBelow(name: string, prefix: string, k: nat) {
    exists j: nat :: j < k && (name == DigitName(prefix, 4 * j) || name == DoneName(prefix, 4 * j))
  }

  lemma DigitMarks(src: reg, prefix: string, shift: nat)
    ensures Distinct(PutHexDigit(src, prefix, shift))
    ensures forall c | c in PutHexDigit(src, prefix, shift) ::
      c.Mark? ==> c.name == DigitName(prefix, shift) || c.name == DoneName(prefix, shift)
  {
    hide DigitName, DoneName;
    NamesDiffer(prefix, shift, shift);
  }

  lemma DigitJumps(src: reg, prefix: string, shift: nat)
    ensures forall c | c in PutHexDigit(src, prefix, shift) ::
      c.Emit? && IsJump(c.i) ==> Mark(c.i.to) in PutHexDigit(src, prefix, shift)
  {
    hide DigitName, DoneName;
    var macro := PutHexDigit(src, prefix, shift);
    assert macro[7] == Mark(DigitName(prefix, shift)) && macro[9] == Mark(DoneName(prefix, shift));
  }

  lemma DigitAccepted(src: reg, prefix: string, shift: nat)
    requires shift < 32
    ensures Accepted(PutHexDigit(src, prefix, shift))
  {
    hide DigitName, DoneName, SignedRange;
    SmallImmediates();
  }

  lemma {:induction false} DigitsMarks(src: reg, prefix: string, k: nat)
    requires k <= 8
    ensures var m := PutHexDigits(src, prefix, k);
      && |m| == 11 * k && Distinct(m) && Accepted(m)
      && (forall c | c in m :: c.Mark? ==> NameBelow(c.name, prefix, k))
      && forall c | c in m :: c.Emit? && IsJump(c.i) ==> Mark(c.i.to) in m
  {
    hide DigitName, DoneName, PutHexDigit, NameBelow, Encodable;
    if k == 0 {
    } else {
      var a, b := PutHexDigit(src, prefix, 4 * (k - 1)), PutHexDigits(src, prefix, k - 1);
      DigitLength(src, prefix, 4 * (k - 1));
      DigitMarks(src, prefix, 4 * (k - 1));
      DigitJumps(src, prefix, 4 * (k - 1));
      DigitAccepted(src, prefix, 4 * (k - 1));
      DigitsMarks(src, prefix, k - 1);
      forall c, d | c in a && d in b && c.Mark? && d.Mark? ensures c.name != d.name {
        NewName(prefix, k - 1, c.name, d.name);
      }
      DistinctAppend(a, b);
      forall c | c in a + b && c.Mark? ensures NameBelow(c.name, prefix, k) {
        Below(prefix, k, c.name);
      }
    }
  }

  lemma NewName(prefix: string, k: nat, name: string, other: string)
    requires (name == DigitName(prefix, 4 * k) || name == DoneName(prefix, 4 * k)) && NameBelow(other, prefix, k)
    ensures name != other
  {
    hide DigitName, DoneName;
    var j: nat :| j < k && (other == DigitName(prefix, 4 * j) || other == DoneName(prefix, 4 * j));
    NamesDiffer(prefix, 4 * k, 4 * j);
    NamesDiffer(prefix, 4 * j, 4 * k);
  }

  lemma Below(prefix: string, k: nat, name: string)
    requires k > 0
    requires name == DigitName(prefix, 4 * (k - 1)) || name == DoneName(prefix, 4 * (k - 1))
          || NameBelow(name, prefix, k - 1)
    ensures NameBelow(name, prefix, k)
  {
    hide DigitName, DoneName;
  }

  /** On its own the macro always assembles, for every source register and every prefix. */
  lemma PutHexWordAssembles(src: reg, prefix: string, base: word, card: Card)
    requires base < W32 - 0x1000
    ensures Assembled(Env(PutHexWord(src, prefix), base, card))
  {
    hide PutHexDigits, CodeOf, LabelsOf, Accepted, AllResolvable, Distinct, NameBelow;
    var calls := PutHexWord(src, prefix);
    DigitsMarks(src, prefix, 8);
    CodeBound(calls);
    ShortProgramsResolve(calls);
  }
}
