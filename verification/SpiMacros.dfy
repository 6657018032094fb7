/** The SPI macros of the boot ROM generator, executed: however long each transfer stays
    busy, a macro delivers the card's next bytes. */
module SpiMacros {
  import opened Bits
  import opened UnifiedMem
  import opened Rv32
  import opened Assembler
  import opened AsmRun
  import opened BootSpec

  /** One byte exchanged: start, poll the busy bit, read, release.  The macros spi_begin and
      spi_end are the two-call groups around the polling loop. */
  function SpiTransfer(tx: byte, wait: string): seq<Call> {
    [ Load(T0, tx),
      Emit(Sb(T0, 4, S3)),
      Load(T0, 0x0B),
      Emit(Sb(T0, 0, S3)),
      Mark(wait),
      Emit(Lw(T1, 0, S3)),
      Emit(Andi(T0, T1, 0x4)),
      Emit(Bne(T0, ZERO, wait)),
      Emit(Lw(T1, 4, S3)),
      Load(T0, 0x08),
      Emit(Sb(T0, 0, S3)) ]
  }

  function CopyReg(rd: reg, rs: reg): Call { Emit(Addi(rd, rs, 0)) }

  /** Four bytes into the lanes of a register. */
  function ReadU32Le(dst: reg, prefix: string): seq<Call> {
    SpiTransfer(0xFF, prefix + "_wait_b0") + ([CopyReg(T3, T1)] + (
    SpiTransfer(0xFF, prefix + "_wait_b1") + ([CopyReg(T4, T1)] + (
    SpiTransfer(0xFF, prefix + "_wait_b2") + ([CopyReg(T5, T1)] + (
    SpiTransfer(0xFF, prefix + "_wait_b3") + JoinLanes(dst)))))))
  }

  function JoinLanes(dst: reg): seq<Call> {
    [ CopyReg(T6, T1),
      Emit(Slli(T4, T4, 8)),
      Emit(Slli(T5, T5, 16)),
      Emit(Slli(T6, T6, 24)),
      CopyReg(dst, T3),
      Emit(OrOp(dst, dst, T4)),
      Emit(OrOp(dst, dst, T5)),
      Emit(OrOp(dst, dst, T6)) ]
  }

  // ------------------------------------------------------------------ the state between macros

  /** No transfer is under way and the card has delivered `taken` bytes. */
  predicate Idle(m: Machine, taken: nat) { m.bus.spi.busy == 0 && m.bus.spi.taken == taken }

  /** SRAM and the console are as before. */
  predicate SameMemory(m: Machine, n: Machine) { n.bus.sram == m.bus.sram && n.bus.printed == m.bus.printed }

  /** A macro went from m to n, reading `count` bytes and changing at most these registers. */
  ghost predicate Did(m: Machine, n: Machine, changed: set<reg>, count: nat) {
    && Sane(m) && Sane(n)
    && Keeps(m, n, changed) && SameMemory(m, n)
    && n.bus.spi.busy == 0 && n.bus.spi.taken == m.bus.spi.taken + count
  }

  lemma DidThen(m: Machine, n: Machine, o: Machine, changed: set<reg>, more: set<reg>, a: nat, b: nat)
    requires Did(m, n, changed, a) && Did(n, o, more, b) && more <= changed
    ensures Did(m, o, changed, a + b)
  {
  }

  lemma DidKeeps(m: Machine, n: Machine, changed: set<reg>, count: nat, r: reg)
    requires Did(m, n, changed, count) && r !in changed
    ensures Sane(n) && Get(n, r) == Get(m, r)
  {
  }

  // ------------------------------------------------------------------ one transfer

  /** The busy bit of the status word, as the polling loop tests it. */
  lemma BusyBit(s: Spi)
    ensures AndWord(SpiStatus(s), Wrap(4)) == if s.busy > 0 then 4 else 0
  {
    var n: nat := SpiStatus(s);
    var high: nat := s.divider * 0x2000 + if s.done then 1 else 0;
    var b: nat := if s.busy > 0 then 1 else 0;
    var h: nat := if s.hold then 1 else 0;
    assert n == 8 * high + 4 * b + 2 * h;
    assert n / 2 == 4 * high + 2 * b + h && n / 2 / 2 == 2 * high + b;
    assert And(n / 2 / 2, 1) == b;
    assert And(n / 2, 2) == 2 * b;
  }

  /** The transfer will end with byte b in the receive register. */
  predicate Coming(m: Machine, b: byte, taken: nat) {
    && m.bus.spi.taken == taken
    && if m.bus.spi.busy == 0 then m.bus.spi.rx == b else m.bus.spi.incoming == b
  }

  /** What the polling loop may change. */
  ghost predicate Polling(m: Machine, n: Machine, b: byte, taken: nat) {
    && Sane(m) && Sane(n)
    && Keeps(m, n, {T0, T1}) && SameMemory(m, n)
    && Coming(n, b, taken)
  }

  lemma Poll(m: Machine, n: Machine, card: Card, b: byte, taken: nat)
    requires Sane(m) && Get(m, S3) == SPI_BASE && Coming(m, b, taken)
    requires n == Exec(Emit(Lw(T1, 0, S3)), m, card)
    ensures Polling(m, n, b, taken) && Get(n, T1) == SpiStatus(m.bus.spi)
    ensures n.bus.spi.busy == if m.bus.spi.busy == 0 then 0 else m.bus.spi.busy - 1
  {
    hide SpiStatus;
  }

  /** One turn of the polling loop. */
  lemma PollOnce(e: Env, p0: nat, m0: Machine, p: nat, tx: byte, wait: string, m: Machine, b: byte, taken: nat)
    returns (n: Machine)
    requires Loadable(e) && Placed(e, p, SpiTransfer(tx, wait)) && Leads(e, p0, m0, p + 4, m)
    requires Sane(m) && Get(m, S3) == SPI_BASE && Coming(m, b, taken)
    ensures Leads(e, p0, m0, if m.bus.spi.busy == 0 then p + 8 else p + 4, n) && Polling(m, n, b, taken)
    ensures n.bus.spi.busy == if m.bus.spi.busy == 0 then 0 else m.bus.spi.busy - 1
  {
    hide Leads, Loadable, AndWord, SpiStatus, Loaded, LoadValue;
    var macro := SpiTransfer(tx, wait);
    var m1 := Do(e, p0, m0, p, macro, 4, m);
    var m2 := Do(e, p0, m0, p, macro, 5, m1);
    Poll(m, m2, e.card, b, taken);
    n := Do(e, p0, m0, p, macro, 6, m2);
    BusyBit(m.bus.spi);
    assert e.calls[p + 4] == macro[4];
    Jump(e, p0, m0, p, macro, 7, n, p + 4);
  }

  lemma {:induction false} PollLoop(e: Env, p0: nat, m0: Machine, p: nat, tx: byte, wait: string, m: Machine, b: byte,
                                    taken: nat)
    returns (n: Machine)
    requires Loadable(e) && Placed(e, p, SpiTransfer(tx, wait)) && Leads(e, p0, m0, p + 4, m)
    requires Sane(m) && Get(m, S3) == SPI_BASE && Coming(m, b, taken)
    ensures Leads(e, p0, m0, p + 8, n) && Polling(m, n, b, taken) && n.bus.spi.busy == 0
    decreases m.bus.spi.busy
  {
    hide Leads, Loadable, Placed, SpiTransfer;
    n := PollOnce(e, p0, m0, p, tx, wait, m, b, taken);
    if m.bus.spi.busy == 0 {
    } else {
      n := PollLoop(e, p0, m0, p, tx, wait, n, b, taken);
    }
  }

  /** Starting a transfer takes the card's next byte. */
  lemma Start(m: Machine, card: Card, v: byte)
    requires Sane(m) && m.bus.spi.busy == 0 && v % 2 == 1
    ensures var n := m.(bus := StoreByte(m.bus, SPI_BASE, v, card));
      SameMemory(m, n) && n.regs == m.regs && Coming(n, card.data(m.bus.spi.taken), m.bus.spi.taken + 1)
  {
  }

  lemma TransferStart(e: Env, p0: nat, m0: Machine, p: nat, tx: byte, wait: string, m: Machine) returns (n: Machine)
    requires Loadable(e) && Placed(e, p, SpiTransfer(tx, wait)) && Leads(e, p0, m0, p, m)
    requires Sane(m) && Get(m, S3) == SPI_BASE && m.bus.spi.busy == 0
    ensures Leads(e, p0, m0, p + 4, n) && Polling(m, n, e.card.data(m.bus.spi.taken), m.bus.spi.taken + 1)
  {
    hide Leads, Loadable, SpiControl;
    var macro := SpiTransfer(tx, wait);
    var m1 := Do(e, p0, m0, p, macro, 0, m);
    var m2 := Do(e, p0, m0, p, macro, 1, m1);
    assert m2.bus == m.bus;
    var m3 := Do(e, p0, m0, p, macro, 2, m2);
    n := Do(e, p0, m0, p, macro, 3, m3);
    Start(m3, e.card, 0x0B);
  }

  lemma TransferEnd(e: Env, p0: nat, m0: Machine, p: nat, tx: byte, wait: string, m: Machine, b: byte, taken: nat)
    returns (n: Machine)
    requires Loadable(e) && Placed(e, p, SpiTransfer(tx, wait)) && Leads(e, p0, m0, p + 8, m)
    requires Sane(m) && Get(m, S3) == SPI_BASE && Coming(m, b, taken) && m.bus.spi.busy == 0
    ensures Leads(e, p0, m0, p + 11, n) && Sane(n) && Keeps(m, n, {T0, T1}) && SameMemory(m, n)
    ensures Get(n, T1) == b && Idle(n, taken)
  {
    hide Leads, Loadable;
    var macro := SpiTransfer(tx, wait);
    var m1 := Do(e, p0, m0, p, macro, 8, m);
    var m2 := Do(e, p0, m0, p, macro, 9, m1);
    n := Do(e, p0, m0, p, macro, 10, m2);
  }

  /** A transfer ends with the card's next byte in t1, however long the card was busy. */
  lemma Transfers(e: Env, p0: nat, m0: Machine, p: nat, tx: byte, wait: string, m: Machine) returns (n: Machine)
    requires Loadable(e) && Placed(e, p, SpiTransfer(tx, wait)) && Leads(e, p0, m0, p, m)
    requires Sane(m) && Get(m, S3) == SPI_BASE && m.bus.spi.busy == 0
    ensures Leads(e, p0, m0, p + 11, n) && Did(m, n, {T0, T1}, 1)
    ensures Get(n, T1) == e.card.data(m.bus.spi.taken)
  {
    hide Leads, Loadable, SpiTransfer, Placed;
    var b, t := e.card.data(m.bus.spi.taken), m.bus.spi.taken + 1;
    var m1 := TransferStart(e, p0, m0, p, tx, wait, m);
    var m2 := PollLoop(e, p0, m0, p, tx, wait, m1, b, t);
    n := TransferEnd(e, p0, m0, p, tx, wait, m2, b, t);
  }

  // ------------------------------------------------------------------ a word

  const LANES: set<reg> := {T0, T1, T3, T4, T5, T6}

  lemma TransferCopies(e: Env, p0: nat, m0: Machine, p: nat, rd: reg, wait: string, m: Machine) returns (n: Machine)
    requires Loadable(e) && Placed(e, p, SpiTransfer(0xFF, wait)) && Placed(e, p + 11, [CopyReg(rd, T1)])
    requires Leads(e, p0, m0, p, m) && rd in LANES && rd != T0 && rd != T1
    requires Sane(m) && Get(m, S3) == SPI_BASE && m.bus.spi.busy == 0
    ensures Leads(e, p0, m0, p + 12, n) && Did(m, n, {T0, T1, rd}, 1)
    ensures Get(n, rd) == e.card.data(m.bus.spi.taken)
  {
    hide Leads, Loadable, SpiTransfer;
    var m1 := Transfers(e, p0, m0, p, 0xFF, wait, m);
    n := Do(e, p0, m0, p + 11, [CopyReg(rd, T1)], 0, m1);
  }

  lemma LanesJoin(b0: byte, b1: byte, b2: byte, b3: byte)
    ensures OrWord(OrWord(OrWord(b0, b1 * 0x100), b2 * 0x1_0000), b3 * 0x100_0000) == WordOf(b0, b1, b2, b3)
  {
    hide Or;
    OrLane(b0, b1, 1);
    OrLane(b0 + b1 * 0x100, b2, 2);
    OrLane(b0 + b1 * 0x100 + b2 * 0x1_0000, b3, 3);
  }

  /** Shifting a byte into a higher lane loses nothing. */
  lemma ShiftByte(m: Machine, r: reg, b: byte, k: nat, card: Card)
    requires Sane(m) && r != 0 && Get(m, r) == b && 0 < k < 4
    ensures Exec(Emit(Slli(r, r, 8 * k)), m, card) == Set(m, r, InLane(b, k))
  {
    Pow2Values();
  }

  lemma ShiftsLane(e: Env, p0: nat, m0: Machine, p: nat, macro: seq<Call>, j: nat, m: Machine, r: reg, b: byte, k: nat)
    returns (n: Machine)
    requires Loadable(e) && Placed(e, p, macro) && j < |macro| && Leads(e, p0, m0, p + j, m) && Sane(m)
    requires r != 0 && Get(m, r) == b && 0 < k < 4 && macro[j] == Emit(Slli(r, r, 8 * k))
    ensures Leads(e, p0, m0, p + j + 1, n) && Sane(n) && n.bus == m.bus && Keeps(m, n, {r})
    ensures Get(n, r) == InLane(b, k)
  {
    hide Leads, Loadable, Placed, Exec;
    n := Do(e, p0, m0, p, macro, j, m);
    ShiftByte(m, r, b, k, e.card);
  }

  lemma LanesShift(e: Env, p0: nat, m0: Machine, p: nat, dst: reg, m: Machine, b1: byte, b2: byte, b3: byte)
    returns (n: Machine)
    requires Loadable(e) && Placed(e, p, JoinLanes(dst)) && Leads(e, p0, m0, p, m) && Sane(m)
    requires Get(m, T4) == b1 && Get(m, T5) == b2 && Get(m, T1) == b3
    ensures Leads(e, p0, m0, p + 4, n) && Sane(n) && n.bus == m.bus && Keeps(m, n, {T4, T5, T6})
    ensures Get(n, T4) == b1 * 0x100 && Get(n, T5) == b2 * 0x1_0000 && Get(n, T6) == b3 * 0x100_0000
  {
    hide Leads, Loadable, Placed, Exec;
    var macro := JoinLanes(dst);
    var m1 := Do(e, p0, m0, p, macro, 0, m);
    CopyEffect(m, T6, T1, e.card);
    assert Keeps(m, m1, {T6}) && Get(m1, T6) == b3;
    hide Get;
    var m2 := ShiftsLane(e, p0, m0, p, macro, 1, m1, T4, b1, 1);
    var m3 := ShiftsLane(e, p0, m0, p, macro, 2, m2, T5, b2, 2);
    n := ShiftsLane(e, p0, m0, p, macro, 3, m3, T6, b3, 3);
  }

  lemma CopyEffect(m: Machine, rd: reg, rs: reg, card: Card)
    requires Sane(m)
    ensures Exec(CopyReg(rd, rs), m, card) == Set(m, rd, Get(m, rs))
  {
  }

  lemma LanesOr(e: Env, p0: nat, m0: Machine, p: nat, dst: reg, m: Machine) returns (n: Machine)
    requires Loadable(e) && Placed(e, p, JoinLanes(dst)) && Leads(e, p0, m0, p + 4, m) && Sane(m)
    requires dst !in LANES && dst != 0
    ensures Leads(e, p0, m0, p + 8, n) && Sane(n) && n.bus == m.bus && Keeps(m, n, {dst})
    ensures Get(n, dst) == OrWord(OrWord(OrWord(Get(m, T3), Get(m, T4)), Get(m, T5)), Get(m, T6))
  {
    hide Leads, Loadable, OrWord;
    var macro := JoinLanes(dst);
    var m1 := Do(e, p0, m0, p, macro, 4, m);
    var m2 := Do(e, p0, m0, p, macro, 5, m1);
    var m3 := Do(e, p0, m0, p, macro, 6, m2);
    n := Do(e, p0, m0, p, macro, 7, m3);
  }

  lemma ReadPlaces(e: Env, p: nat, dst: reg, prefix: string)
    requires Placed(e, p, ReadU32Le(dst, prefix))
    ensures Placed(e, p, SpiTransfer(0xFF, prefix + "_wait_b0")) && Placed(e, p + 11, [CopyReg(T3, T1)])
    ensures Placed(e, p + 12, SpiTransfer(0xFF, prefix + "_wait_b1")) && Placed(e, p + 23, [CopyReg(T4, T1)])
    ensures Placed(e, p + 24, SpiTransfer(0xFF, prefix + "_wait_b2")) && Placed(e, p + 35, [CopyReg(T5, T1)])
    ensures Placed(e, p + 36, SpiTransfer(0xFF, prefix + "_wait_b3")) && Placed(e, p + 47, JoinLanes(dst))
    ensures |ReadU32Le(dst, prefix)| == 55
  {
    hide Placed, JoinLanes;
    var w0, w1 := SpiTransfer(0xFF, prefix + "_wait_b0"), SpiTransfer(0xFF, prefix + "_wait_b1");
    var w2, w3 := SpiTransfer(0xFF, prefix + "_wait_b2"), SpiTransfer(0xFF, prefix + "_wait_b3");
    var r3 := w3 + JoinLanes(dst);
    var r2 := w2 + ([CopyReg(T5, T1)] + r3);
    var r1 := w1 + ([CopyReg(T4, T1)] + r2);
    TransferLength(prefix + "_wait_b0");
    TransferLength(prefix + "_wait_b1");
    TransferLength(prefix + "_wait_b2");
    TransferLength(prefix + "_wait_b3");
    JoinLength(dst);
    hide SpiTransfer;
    PlacedSplit(e, p, w0, [CopyReg(T3, T1)] + r1);
    PlacedSplit(e, p + 11, [CopyReg(T3, T1)], r1);
    PlacedSplit(e, p + 12, w1, [CopyReg(T4, T1)] + r2);
    PlacedSplit(e, p + 23, [CopyReg(T4, T1)], r2);
    PlacedSplit(e, p + 24, w2, [CopyReg(T5, T1)] + r3);
    PlacedSplit(e, p + 35, [CopyReg(T5, T1)], r3);
    PlacedSplit(e, p + 36, w3, JoinLanes(dst));
  }

  lemma ReadLength(dst: reg, prefix: string)
    ensures |ReadU32Le(dst, prefix)| == 55
  {
  }

  lemma TransferLength(wait: string)
    ensures |SpiTransfer(0xFF, wait)| == 11
  {
  }

  lemma JoinLength(dst: reg)
    ensures |JoinLanes(dst)| == 8
  {
  }

  /** read_u32_le leaves the card's next four bytes, little-endian, in its register. */
  lemma ReadsWord(e: Env, p0: nat, m0: Machine, p: nat, dst: reg, prefix: string, m: Machine) returns (n: Machine)
    requires Loadable(e) && Placed(e, p, ReadU32Le(dst, prefix)) && Leads(e, p0, m0, p, m)
    requires Sane(m) && Get(m, S3) == SPI_BASE && m.bus.spi.busy == 0 && dst !in LANES && dst != 0 && dst != S3
    ensures Leads(e, p0, m0, p + 55, n) && Did(m, n, LANES + {dst}, 4)
    ensures Get(n, dst) == WordAt(e.card.data, m.bus.spi.taken)
  {
    hide Leads, Loadable, Placed, SpiTransfer, JoinLanes, ReadU32Le, OrWord, Did;
    ReadPlaces(e, p, dst, prefix);
    var m1 := TransferCopies(e, p0, m0, p, T3, prefix + "_wait_b0", m);
    Between(m, m, m1, T3, 0, {});
    var m2 := TransferCopies(e, p0, m0, p + 12, T4, prefix + "_wait_b1", m1);
    Between(m, m1, m2, T4, 1, {T3});
    var m3 := TransferCopies(e, p0, m0, p + 24, T5, prefix + "_wait_b2", m2);
    Between(m, m2, m3, T5, 2, {T3, T4});
    var m4 := Transfers(e, p0, m0, p + 36, 0xFF, prefix + "_wait_b3", m3);
    assert {T0, T1, T1} == {T0, T1};
    Between(m, m3, m4, T1, 3, {T3, T4, T5});
    var t := m.bus.spi.taken;
    var b0, b1, b2, b3 := e.card.data(t), e.card.data(t + 1), e.card.data(t + 2), e.card.data(t + 3);
    var m5 := LanesShift(e, p0, m0, p + 47, dst, m4, b1, b2, b3);
    n := LanesOr(e, p0, m0, p + 47, dst, m5);
    LanesJoin(b0, b1, b2, b3);
    assert Did(m, n, LANES + {dst}, 4) by { Finish(m, m4, m5, n, dst); }
  }

  lemma Between(m: Machine, a: Machine, b: Machine, rd: reg, k: nat, kept: set<reg>)
    requires Sane(m) && Sane(a)
    requires if k == 0 then a == m && m.bus.spi.busy == 0 else Did(m, a, LANES, k)
    requires Did(a, b, {T0, T1, rd}, 1) && rd in LANES && rd !in kept && T0 !in kept && T1 !in kept
    ensures Did(m, b, LANES, k + 1) && Get(b, S3) == Get(m, S3) && b.bus.spi.busy == 0
    ensures b.bus.spi.taken == m.bus.spi.taken + k + 1 && a.bus.spi.taken == m.bus.spi.taken + k
    ensures forall r | r in kept :: Get(b, r) == Get(a, r)
  {
    assert S3 !in LANES;
  }

  lemma Finish(m: Machine, m4: Machine, m5: Machine, n: Machine, dst: reg)
    requires Did(m, m4, LANES, 4) && Sane(m5) && Sane(n) && m5.bus == m4.bus && n.bus == m5.bus
    requires Keeps(m4, m5, {T4, T5, T6}) && Keeps(m5, n, {dst})
    ensures Did(m, n, LANES + {dst}, 4)
  {
  }

  // ------------------------------------------------------------------ an expected byte

  function SpiExpect(tx: byte, expected: byte, wait: string, okName: string, fail: string): seq<Call> {
    SpiTransfer(tx, wait) + ExpectTest(expected, okName, fail)
  }

  /** The comparison of spi_expect, and the mark its caller puts behind it. */
  function ExpectTest(expected: byte, okName: string, fail: string): seq<Call> {
    [ Load(T0, expected),
      Emit(Beq(T1, T0, okName)),
      Emit(Jal(ZERO, fail)),
      Mark(okName) ]
  }

  /** One expected byte: on to the mark behind it, or to the failure label. */
  lemma Expects(e: Env, p0: nat, m0: Machine, p: nat, expected: byte, wait: string, okName: string, fail: string,
                q: nat, m: Machine)
    returns (n: Machine)
    requires Loadable(e) && Placed(e, p, SpiExpect(0xFF, expected, wait, okName, fail)) && MarkedAt(e, q, fail)
    requires Leads(e, p0, m0, p, m) && Sane(m) && Get(m, S3) == SPI_BASE && m.bus.spi.busy == 0
    ensures Did(m, n, {T0, T1}, 1)
    ensures Leads(e, p0, m0, if e.card.data(m.bus.spi.taken) == expected then p + 15 else q, n)
  {
    hide Leads, Loadable, SpiTransfer, Placed;
    var macro := ExpectTest(expected, okName, fail);
    TransferLength(wait);
    PlacedSplit(e, p, SpiTransfer(0xFF, wait), macro);
    var m1 := Transfers(e, p0, m0, p, 0xFF, wait, m);
    n := Do(e, p0, m0, p + 11, macro, 0, m1);
    PlacedMark(e, p + 11, macro, 3, okName);
    Jump(e, p0, m0, p + 11, macro, 1, n, p + 14);
    if e.card.data(m.bus.spi.taken) == expected {
      var n' := Do(e, p0, m0, p + 11, macro, 3, n);
    } else {
      Jump(e, p0, m0, p + 11, macro, 2, n, q);
    }
  }

  lemma PlacedMark(e: Env, p: nat, macro: seq<Call>, k: nat, name: string)
    requires Placed(e, p, macro) && k < |macro| && macro[k] == Mark(name)
    ensures MarkedAt(e, p + k, name)
  {
  }
}
