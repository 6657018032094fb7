/** The payload loop of the assembly loader, and the block that publishes the image. */
module BootPayload {
  import opened Bits
  import opened Rv32
  import opened Assembler
  import opened AsmRun
  import opened SpiMacros
  import opened BootSpec
  import opened BootListing
  import opened BootAsm

  // ------------------------------------------------------------------ one byte

  lemma LoopMarks(e: Env, p: nat)
    requires BodyPlaces(e, p)
    ensures MarkedAt(e, p + 515, "payload_lane1") && MarkedAt(e, p + 520, "payload_lane2")
    ensures MarkedAt(e, p + 525, "payload_lane3") && MarkedAt(e, p + 531, "payload_byte_done")
    ensures MarkedAt(e, p + 493, "payload_loop")
  {
    hide Placed, Checks, SpiTransfer, MarkedAt;
    var macro := PayloadByte();
    PlacedMark(e, p + 505, macro, 10, "payload_lane1");
    PlacedMark(e, p + 505, macro, 15, "payload_lane2");
    PlacedMark(e, p + 505, macro, 20, "payload_lane3");
    PlacedMark(e, p + 505, macro, 26, "payload_byte_done");
    PlacedMark(e, p + 488, LoopSetup(), 5, "payload_loop");
  }

  /** Where the instructions for lane k begin. */
  function LanePlace(p: nat, k: nat): nat {
    if k == 0 then p + 512 else if k == 1 then p + 515 else if k == 2 then p + 520 else p + 525
  }

  /** li and beq: a test of t4 against a constant. */
  lemma TestLane(e: Env, p0: nat, m0: Machine, p: nat, macro: seq<Call>, k: nat, m: Machine, lane: word, q: nat)
    returns (n: Machine)
    requires Loadable(e) && Placed(e, p, macro) && k + 1 < |macro| && Leads(e, p0, m0, p + k, m) && Sane(m)
    requires macro[k] == Load(T0, lane) && macro[k + 1].Emit? && macro[k + 1].i.Beq?
    requires macro[k + 1].i.rs1 == T4 && macro[k + 1].i.rs2 == T0 && MarkedAt(e, q, macro[k + 1].i.to)
    ensures Computed(m, n, {T0})
    ensures Leads(e, p0, m0, if Get(m, T4) == lane then q else p + k + 2, n)
  {
    hide Leads, Loadable, Placed, MarkedAt;
    n := Do(e, p0, m0, p, macro, k, m);
    Jump(e, p0, m0, p, macro, k + 1, n, q);
  }

  lemma FindsLane(e: Env, p0: nat, m0: Machine, p: nat, m: Machine, k: nat) returns (n: Machine)
    requires Loadable(e) && BodyPlaces(e, p) && Leads(e, p0, m0, p + 506, m) && Sane(m) && Get(m, T4) == k < 4
    ensures Computed(m, n, {T0}) && Leads(e, p0, m0, LanePlace(p, k), n)
  {
    hide Leads, Loadable, Placed, MarkedAt, Checks, SpiTransfer, LoopSetup;
    LoopMarks(e, p);
    var macro := PayloadByte();
    n := TestLane(e, p0, m0, p + 505, macro, 1, m, 1, p + 515);
    if k != 1 {
      n := TestLane(e, p0, m0, p + 505, macro, 3, n, 2, p + 520);
      if k != 2 {
        n := TestLane(e, p0, m0, p + 505, macro, 5, n, 3, p + 525);
      }
    }
  }

  const LANE_REGS: set<reg> := {T4, T5, T6, S10}

  /** The byte in t1 joined to the word begun in t5; a full word goes into the sum. */
  ghost predicate LaneDone(m: Machine, n: Machine, k: nat) {
    && Computed(m, n, LANE_REGS) && k < 4
    && Get(m, T1) < 256 && Get(m, T5) < Lane(k)
    && var w := Get(m, T5) + InLane(Get(m, T1), k);
    && (k < 3 ==> Get(n, T4) == k + 1 && Get(n, T5) == w && Get(n, S10) == Get(m, S10))
    && (k == 3 ==> Get(n, T4) == 0 && Get(n, T5) == 0 && Get(n, S10) == Wrap(Get(m, S10) + w))
  }

  /** slli and or: the byte in t1 goes into lane k of t5. */
  lemma OrsLane(e: Env, p0: nat, m0: Machine, p: nat, macro: seq<Call>, j: nat, m: Machine, k: nat) returns (n: Machine)
    requires Loadable(e) && Placed(e, p, macro) && j + 1 < |macro| && Leads(e, p0, m0, p + j, m) && Sane(m) && 0 < k < 4
    requires macro[j] == Emit(Slli(T6, T1, 8 * k)) && macro[j + 1] == Emit(OrOp(T5, T5, T6))
    requires Get(m, T1) < 256 && Get(m, T5) < Lane(k)
    ensures Leads(e, p0, m0, p + j + 2, n) && Computed(m, n, {T5, T6})
    ensures Get(n, T5) == Get(m, T5) + InLane(Get(m, T1), k)
  {
    hide Leads, Loadable, Placed, Exec, Or;
    var m1 := Do(e, p0, m0, p, macro, j, m);
    ShiftInto(m, T6, T1, k, e.card);
    n := Do(e, p0, m0, p, macro, j + 1, m1);
    OrEffect(m1, e.card);
    OrLane(Get(m, T5), Get(m, T1), k);
  }

  lemma ShiftInto(m: Machine, rd: reg, rs: reg, k: nat, card: Card)
    requires Sane(m) && Get(m, rs) < 256 && 0 < k < 4
    ensures InLane(Get(m, rs), k) < W32 && Exec(Emit(Slli(rd, rs, 8 * k)), m, card) == Set(m, rd, InLane(Get(m, rs), k))
  {
    Pow2Values();
  }

  lemma OrEffect(m: Machine, card: Card)
    requires Sane(m)
    ensures Exec(Emit(OrOp(T5, T5, T6)), m, card) == Set(m, T5, OrWord(Get(m, T5), Get(m, T6)))
  {
    hide OrWord;
  }

  lemma FirstLane(e: Env, p0: nat, m0: Machine, p: nat, m: Machine) returns (n: Machine)
    requires Loadable(e) && BodyPlaces(e, p) && Leads(e, p0, m0, p + 512, m) && Sane(m)
    requires Get(m, T1) < 256 && Get(m, T5) == 0
    ensures Leads(e, p0, m0, p + 531, n) && LaneDone(m, n, 0)
  {
    hide Leads, Loadable, Placed, MarkedAt, Checks, SpiTransfer, LoopSetup;
    LoopMarks(e, p);
    var macro := PayloadByte();
    var m1 := Do(e, p0, m0, p + 505, macro, 7, m);
    n := Do(e, p0, m0, p + 505, macro, 8, m1);
    Jump(e, p0, m0, p + 505, macro, 9, n, p + 531);
  }

  lemma MiddleLane(e: Env, p0: nat, m0: Machine, p: nat, macro: seq<Call>, j: nat, m: Machine, k: nat, q: nat)
    returns (n: Machine)
    requires Loadable(e) && Placed(e, p, macro) && 1 <= k <= 2 && Leads(e, p0, m0, p + j, m) && Sane(m)
    requires j + 4 < |macro| && macro[j].Mark? && macro[j + 1] == Emit(Slli(T6, T1, 8 * k))
    requires macro[j + 2] == Emit(OrOp(T5, T5, T6)) && macro[j + 3] == Load(T4, k + 1)
    requires macro[j + 4] == J("payload_byte_done") && MarkedAt(e, q, "payload_byte_done")
    requires Get(m, T1) < 256 && Get(m, T5) < Lane(k)
    ensures Leads(e, p0, m0, q, n) && LaneDone(m, n, k)
  {
    hide Leads, Loadable, Placed, MarkedAt, Exec;
    var m1 := Do(e, p0, m0, p, macro, j, m);
    MarkStays(macro[j], m, e.card);
    var m2 := OrsLane(e, p0, m0, p, macro, j + 1, m1, k);
    n := Do(e, p0, m0, p, macro, j + 3, m2);
    LoadEffect(m2, T4, k + 1, e.card);
    Jump(e, p0, m0, p, macro, j + 4, n, q);
  }

  lemma LastLane(e: Env, p0: nat, m0: Machine, p: nat, m: Machine) returns (n: Machine)
    requires Loadable(e) && BodyPlaces(e, p) && Leads(e, p0, m0, p + 525, m) && Sane(m)
    requires Get(m, T1) < 256 && Get(m, T5) < Lane(3)
    ensures Leads(e, p0, m0, p + 531, n) && LaneDone(m, n, 3)
  {
    hide Leads, Loadable, Placed, Checks, SpiTransfer, LoopSetup, Exec;
    var macro := PayloadByte();
    var m1 := Do(e, p0, m0, p + 505, macro, 20, m);
    MarkStays(macro[20], m, e.card);
    var m2 := OrsLane(e, p0, m0, p + 505, macro, 21, m1, 3);
    n := ClosesWord(e, p0, m0, p + 505, macro, 23, m2);
  }

  /** The full word joins the sum, and the next one starts empty. */
  lemma ClosesWord(e: Env, p0: nat, m0: Machine, p: nat, macro: seq<Call>, j: nat, m: Machine) returns (n: Machine)
    requires Loadable(e) && Placed(e, p, macro) && j + 2 < |macro| && Leads(e, p0, m0, p + j, m) && Sane(m)
    requires macro[j] == Emit(Add(S10, S10, T5)) && macro[j + 1] == Load(T5, 0) && macro[j + 2] == Load(T4, 0)
    ensures Leads(e, p0, m0, p + j + 3, n) && Computed(m, n, {S10, T5, T4})
    ensures Get(n, S10) == Wrap(Get(m, S10) + Get(m, T5)) && Get(n, T4) == Get(n, T5) == 0
  {
    hide Leads, Loadable, Placed, Exec;
    var m1 := Do(e, p0, m0, p, macro, j, m);
    AddEffect(m, S10, S10, T5, e.card);
    var m2 := Do(e, p0, m0, p, macro, j + 1, m1);
    LoadEffect(m1, T5, 0, e.card);
    n := Do(e, p0, m0, p, macro, j + 2, m2);
    LoadEffect(m2, T4, 0, e.card);
  }

  lemma AddEffect(m: Machine, rd: reg, a: reg, b: reg, card: Card)
    requires Sane(m)
    ensures Exec(Emit(Add(rd, a, b)), m, card) == Set(m, rd, Wrap(Get(m, a) + Get(m, b)))
  {
  }

  lemma JoinsByte(e: Env, p0: nat, m0: Machine, p: nat, m: Machine, k: nat) returns (n: Machine)
    requires Loadable(e) && BodyPlaces(e, p) && k < 4 && Leads(e, p0, m0, LanePlace(p, k), m) && Sane(m)
    requires Get(m, T1) < 256 && Get(m, T5) < Lane(k)
    ensures Leads(e, p0, m0, p + 531, n) && LaneDone(m, n, k)
  {
    hide Leads, Loadable, Placed, MarkedAt, LaneDone, Checks, SpiTransfer, LoopSetup;
    LoopMarks(e, p);
    if k == 0 {
      n := FirstLane(e, p0, m0, p, m);
    } else if k == 1 {
      n := MiddleLane(e, p0, m0, p + 505, PayloadByte(), 10, m, 1, p + 531);
    } else if k == 2 {
      n := MiddleLane(e, p0, m0, p + 505, PayloadByte(), 15, m, 2, p + 531);
    } else {
      n := LastLane(e, p0, m0, p, m);
    }
  }

  // ------------------------------------------------------------------ the loop

  /** i bytes of the image have been taken: t2 and t3 point behind them, and t4, t5 and s10
      hold their lane, the word begun and the sum. */
  ghost predicate InLoop(m: Machine, h: Header, start: Sram, data: Stream, at: nat, i: nat) {
    && Sane(m) && Fits(h) && i <= h.size && Holds(m, h)
    && Get(m, S0) == UART_BASE && Get(m, S3) == SPI_BASE && Idle(m, at + i)
    && Get(m, T2) == h.load + i && Get(m, T3) == h.size - i && Get(m, T4) == i % 4
    && Get(m, T5) == Partial(Bytes(data, at, h.size), i)
    && Get(m, S10) == SumWords(Bytes(data, at, h.size), i / 4)
    && m.bus.sram == Copied(start, h.load - BASE, data, at, i)
  }

  const LOOP_REGS: set<reg> := {T0, T1, T2, T3, T4, T5, T6, S10}

  /** Since the loop was entered, only its own registers changed and nothing was printed. */
  ghost predicate LoopKeeps(m: Machine, n: Machine) {
    Sane(m) && Sane(n) && Keeps(m, n, LOOP_REGS) && n.bus.printed == m.bus.printed
  }

  lemma SetsRegisters(e: Env, p0: nat, m0: Machine, p: nat, m: Machine) returns (n: Machine)
    requires Loadable(e) && BodyPlaces(e, p) && Leads(e, p0, m0, p + 488, m) && Sane(m)
    ensures Leads(e, p0, m0, p + 494, n) && Computed(m, n, LOOP_REGS)
    ensures Get(n, T2) == Get(m, S6) && Get(n, T3) == Get(m, S7) && Get(n, T4) == Get(n, T5) == Get(n, S10) == 0
  {
    hide Leads, Loadable, Placed, Checks, SpiTransfer, PayloadByte, Exec;
    var macro := LoopSetup();
    var m1 := Do(e, p0, m0, p + 488, macro, 0, m);
    CopyEffect(m, T2, S6, e.card);
    var m2 := Do(e, p0, m0, p + 488, macro, 1, m1);
    CopyEffect(m1, T3, S7, e.card);
    var m3 := Do(e, p0, m0, p + 488, macro, 2, m2);
    LoadEffect(m2, T4, 0, e.card);
    var m4 := Do(e, p0, m0, p + 488, macro, 3, m3);
    LoadEffect(m3, T5, 0, e.card);
    var m5 := Do(e, p0, m0, p + 488, macro, 4, m4);
    LoadEffect(m4, S10, 0, e.card);
    n := Do(e, p0, m0, p + 488, macro, 5, m5);
    MarkStays(macro[5], m5, e.card);
  }

  lemma SetsUp(e: Env, p0: nat, m0: Machine, p: nat, m: Machine, h: Header, at: nat) returns (n: Machine)
    requires Loadable(e) && BodyPlaces(e, p) && Leads(e, p0, m0, p + 488, m) && Sane(m) && Holds(m, h) && Fits(h)
    requires Get(m, S0) == UART_BASE && Get(m, S3) == SPI_BASE && Idle(m, at)
    ensures Leads(e, p0, m0, p + 494, n) && LoopKeeps(m, n) && InLoop(n, h, m.bus.sram, e.card.data, at, 0)
  {
    hide Leads, Loadable, BodyPlaces, Partial, SumWords, Bytes;
    n := SetsRegisters(e, p0, m0, p, m);
    PartialNone(Bytes(e.card.data, at, h.size));
  }

  /** The byte just read is stored at t2. */
  lemma StoresByte(m: Machine, card: Card)
    requires Sane(m) && BASE <= Get(m, T2) < BASE + BYTES && Get(m, T1) < 256
    ensures Exec(Emit(Sb(T1, 0, T2)), m, card)
         == m.(bus := m.bus.(sram := m.bus.sram[Get(m, T2) - BASE := Get(m, T1)]))
  {
  }

  lemma TakesByte(e: Env, p0: nat, m0: Machine, p: nat, m: Machine, h: Header, start: Sram, at: nat, i: nat)
    returns (n: Machine)
    requires Loadable(e) && BodyPlaces(e, p) && Leads(e, p0, m0, p + 494, m)
    requires InLoop(m, h, start, e.card.data, at, i) && i < h.size
    ensures Leads(e, p0, m0, p + 506, n) && LoopKeeps(m, n) && Keeps(m, n, {T0, T1})
    ensures Get(n, T1) == e.card.data(at + i) && Idle(n, at + i + 1)
    ensures n.bus.sram == Copied(start, h.load - BASE, e.card.data, at, i + 1)
  {
    hide Leads, Loadable, Placed, Checks, SpiTransfer, LoopSetup, Exec, Partial, SumWords, Bytes;
    var m1 := Transfers(e, p0, m0, p + 494, 0xFF, "payload_wait", m);
    n := Do(e, p0, m0, p + 505, PayloadByte(), 0, m1);
    StoresByte(m1, e.card);
  }

  lemma Advances(e: Env, p0: nat, m0: Machine, p: nat, m: Machine) returns (n: Machine)
    requires Loadable(e) && BodyPlaces(e, p) && Leads(e, p0, m0, p + 531, m) && Sane(m)
    requires Get(m, T2) + 1 < W32 && Get(m, T3) > 0
    ensures Leads(e, p0, m0, if Get(m, T3) == 1 then p + 535 else p + 494, n) && Computed(m, n, {T2, T3})
    ensures Get(n, T2) == Get(m, T2) + 1 && Get(n, T3) == Get(m, T3) - 1
  {
    hide Leads, Loadable, Placed, MarkedAt, Checks, SpiTransfer, Exec;
    LoopMarks(e, p);
    var macro := PayloadByte();
    var m1 := Do(e, p0, m0, p + 505, macro, 26, m);
    MarkStays(macro[26], m, e.card);
    var m2 := Do(e, p0, m0, p + 505, macro, 27, m1);
    AddsOne(m1, T2, 1, e.card);
    n := Do(e, p0, m0, p + 505, macro, 28, m2);
    AddsOne(m2, T3, -1, e.card);
    Jump(e, p0, m0, p + 505, macro, 29, n, p + 493);
    if Get(m, T3) != 1 {
      var n' := Do(e, p0, m0, p + 488, LoopSetup(), 5, n);
      MarkStays(LoopSetup()[5], n, e.card);
    }
  }

  lemma AddsOne(m: Machine, r: reg, d: int, card: Card)
    requires Sane(m) && 0 <= Get(m, r) + d < W32
    ensures Exec(Emit(Addi(r, r, d)), m, card) == Set(m, r, Get(m, r) + d)
  {
  }

  /** One pass of the loop. */
  lemma OneByte(e: Env, p0: nat, m0: Machine, p: nat, m: Machine, h: Header, start: Sram, at: nat, i: nat)
    returns (n: Machine)
    requires Loadable(e) && BodyPlaces(e, p) && Leads(e, p0, m0, p + 494, m)
    requires InLoop(m, h, start, e.card.data, at, i) && i < h.size
    ensures InLoop(n, h, start, e.card.data, at, i + 1) && LoopKeeps(m, n)
    ensures Leads(e, p0, m0, if i + 1 == h.size then p + 535 else p + 494, n)
  {
    hide Leads, Loadable, BodyPlaces, InLoop, LoopKeeps, LaneDone, Computed, Keeps, Idle, Copied, Lane;
    var q, k: nat := i / 4, i % 4;
    assert i == 4 * q + k;
    var m1 := TakesByte(e, p0, m0, p, m, h, start, at, i);
    LaneState(m, m1, h, start, e.card.data, at, q, k);
    var m2 := FindsLane(e, p0, m0, p, m1, k);
    ComputedKeeps(m1, m2, {T0});
    var m3 := JoinsByte(e, p0, m0, p, m2, k);
    LaneKeeps(m2, m3, k);
    n := Advances(e, p0, m0, p, m3);
    StillInLoop(m, m1, m2, m3, n, h, start, e.card.data, at, q, k);
  }

  lemma LaneState(m: Machine, m1: Machine, h: Header, start: Sram, data: Stream, at: nat, q: nat, k: nat)
    requires k < 4 && InLoop(m, h, start, data, at, 4 * q + k) && 4 * q + k < h.size
    requires LoopKeeps(m, m1) && Keeps(m, m1, {T0, T1})
    ensures Sane(m1) && Get(m1, T4) == k && Get(m1, T5) < Lane(k)
    ensures Get(m1, T2) == h.load + (4 * q + k) < W32 - 1 && Get(m1, T3) == h.size - (4 * q + k) > 0
  {
    hide Partial, SumWords, PaddedWord, Bytes, Copied, Or;
    PartialStep(Bytes(data, at, h.size), q, k);
    DivModUnique(4 * q + k, 4, q, k);
  }

  lemma ComputedKeeps(m: Machine, n: Machine, changed: set<reg>)
    requires Computed(m, n, changed)
    ensures Sane(n) && Keeps(m, n, changed)
    ensures forall r: reg | r !in changed :: Get(n, r) == Get(m, r)
  {
  }

  lemma LaneKeeps(m: Machine, n: Machine, k: nat)
    requires LaneDone(m, n, k)
    ensures Sane(n) && Get(n, T2) == Get(m, T2) && Get(n, T3) == Get(m, T3)
  {
  }

  /** ORing in a byte keeps the word begun and the sum of the finished ones. */
  lemma LaneSums(m: Machine, n: Machine, payload: seq<byte>, q: nat, k: nat)
    requires LaneDone(m, n, k) && 4 * q + k < |payload|
    requires Get(m, T5) == Partial(payload, 4 * q + k) && Get(m, T1) == payload[4 * q + k]
    requires Get(m, S10) == SumWords(payload, q)
    ensures Sane(n) && Get(n, T4) == (4 * q + k + 1) % 4
    ensures Get(n, T5) == Partial(payload, 4 * q + k + 1) && Get(n, S10) == SumWords(payload, (4 * q + k + 1) / 4)
  {
    hide Partial, SumWords, PaddedWord, Or;
    PartialStep(payload, q, k);
    NextLane(q, k);
    SumNext(payload, q);
  }

  lemma StillInLoop(m: Machine, m1: Machine, m2: Machine, m3: Machine, n: Machine, h: Header, start: Sram,
                    data: Stream, at: nat, q: nat, k: nat)
    requires k < 4 && InLoop(m, h, start, data, at, 4 * q + k) && 4 * q + k < h.size
    requires LoopKeeps(m, m1) && Keeps(m, m1, {T0, T1}) && Get(m1, T1) == data(at + (4 * q + k))
    requires Idle(m1, at + (4 * q + k) + 1)
    requires m1.bus.sram == Copied(start, h.load - BASE, data, at, 4 * q + k + 1)
    requires Computed(m1, m2, {T0}) && LaneDone(m2, m3, k) && Computed(m3, n, {T2, T3})
    requires Get(n, T2) == h.load + (4 * q + k) + 1 && Get(n, T3) == h.size - (4 * q + k) - 1
    ensures InLoop(n, h, start, data, at, 4 * q + k + 1) && LoopKeeps(m, n)
  {
    hide Partial, SumWords, PaddedWord, Bytes, Copied, Or, InLane, Lane;
    var payload := Bytes(data, at, h.size);
    BytesAt(data, at, h.size, 4 * q + k);
    DivModUnique(4 * q + k, 4, q, k);
    LaneSums(m2, m3, payload, q, k);
  }

  /** The whole loop, from its i-th pass on. */
  lemma {:induction false} AllBytes(e: Env, p0: nat, m0: Machine, p: nat, m: Machine, h: Header, start: Sram, at: nat,
                                    i: nat)
    returns (n: Machine)
    requires Loadable(e) && BodyPlaces(e, p) && Leads(e, p0, m0, p + 494, m)
    requires InLoop(m, h, start, e.card.data, at, i) && i < h.size
    ensures InLoop(n, h, start, e.card.data, at, h.size) && LoopKeeps(m, n) && Leads(e, p0, m0, p + 535, n)
    decreases h.size - i
  {
    hide Leads, Loadable, BodyPlaces, InLoop;
    n := OneByte(e, p0, m0, p, m, h, start, at, i);
    if i + 1 == h.size {
    } else {
      var m1 := n;
      n := AllBytes(e, p0, m0, p, m1, h, start, at, i + 1);
    }
  }
}
