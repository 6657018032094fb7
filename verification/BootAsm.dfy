/** The assembly boot loader, executed: from boot_try to main_loop it does what the
    specification of its outcome says, for every card and every memory. */
module BootAsm {
  import opened Bits
  import opened UnifiedMem
  import opened Rv32
  import opened Assembler
  import opened AsmRun
  import opened SpiMacros
  import opened BootSpec
  import opened BootListing

  // ------------------------------------------------------------------ places

  lemma ExpectLength(part: Part, i: nat)
    requires i <= |Expected(part)|
    ensures |ExpectFrom(part, i)| == 15 * (|Expected(part)| - i)
    decreases |Expected(part)| - i
  {
    if i == |Expected(part)| {
    } else {
      ExpectLength(part, i + 1);
    }
  }

  lemma {:induction false} PutsLength(text: string)
    ensures |Puts(text)| == 2 * |text|
    decreases |text|
  {
    if text == [] {
    } else {
      PutsLength(text[1..]);
    }
  }

  /** Where the blocks of the listing stand. */
  ghost predicate HeadPlaces(e: Env, p: nat) {
    && Placed(e, p, BootStart())
    && Placed(e, p + 11, ExpectFrom(Magic, 0))
    && Placed(e, p + 71, ReadU32Le(S6, "boot_load_addr"))
    && Placed(e, p + 126, ReadU32Le(S7, "boot_size"))
    && Placed(e, p + 181, ReadU32Le(S8, "boot_entry"))
    && Placed(e, p + 236, ReadU32Le(S9, "boot_checksum"))
    && Placed(e, p + 291, ExpectFrom(Tail, 0))
  }

  ghost predicate BodyPlaces(e: Env, p: nat) {
    && Placed(e, p + 471, Checks())
    && Placed(e, p + 488, LoopSetup())
    && Placed(e, p + 494, SpiTransfer(0xFF, "payload_wait"))
    && Placed(e, p + 505, PayloadByte())
  }

  ghost predicate EndPlaces(e: Env, p: nat) {
    && Placed(e, p + 535, BootAccept())
    && Placed(e, p + 551, Puts(OK_TEXT))
    && Placed(e, p + 573, [J("main_loop")])
    && Placed(e, p + 574, BootReject())
    && Placed(e, p + 593, Puts(ERROR_TEXT))
    && Placed(e, p + 615, [J("main_loop")])
  }

  lemma FieldPlaces(e: Env, p: nat)
    requires Placed(e, p, HeaderFields())
    ensures Placed(e, p, ReadU32Le(S6, "boot_load_addr")) && Placed(e, p + 55, ReadU32Le(S7, "boot_size"))
    ensures Placed(e, p + 110, ReadU32Le(S8, "boot_entry")) && Placed(e, p + 165, ReadU32Le(S9, "boot_checksum"))
    ensures |HeaderFields()| == 220
  {
    hide Placed;
    var a, b := ReadU32Le(S6, "boot_load_addr"), ReadU32Le(S7, "boot_size");
    var c, d := ReadU32Le(S8, "boot_entry"), ReadU32Le(S9, "boot_checksum");
    ReadLength(S6, "boot_load_addr");
    ReadLength(S7, "boot_size");
    ReadLength(S8, "boot_entry");
    ReadLength(S9, "boot_checksum");
    hide ReadU32Le;
    PlacedSplit(e, p, a, b + (c + d));
    PlacedSplit(e, p + 55, b, c + d);
    PlacedSplit(e, p + 110, c, d);
  }

  lemma EndingPlaces(e: Env, p: nat)
    requires Placed(e, p + 535, Ending())
    ensures EndPlaces(e, p)
  {
    hide Placed, Puts;
    var jump := [J("main_loop")];
    PutsLength(OK_TEXT);
    PutsLength(ERROR_TEXT);
    BlockLengths();
    hide BootAccept, BootReject;
    var d := Puts(ERROR_TEXT) + jump;
    var c := BootReject() + d;
    var b := jump + c;
    PlacedSplit(e, p + 535, BootAccept(), Puts(OK_TEXT) + b);
    PlacedSplit(e, p + 551, Puts(OK_TEXT), b);
    PlacedSplit(e, p + 573, jump, c);
    PlacedSplit(e, p + 574, BootReject(), d);
    PlacedSplit(e, p + 593, Puts(ERROR_TEXT), jump);
  }

  lemma BlockLengths()
    ensures |BootStart()| == 11 && |Checks()| == 17 && |LoopSetup()| == 6 && |PayloadByte()| == 30
    ensures |BootAccept()| == 16 && |BootReject()| == 19
  {
  }

  lemma Places(e: Env, p: nat)
    requires Placed(e, p, BootTry())
    ensures HeadPlaces(e, p) && BodyPlaces(e, p) && EndPlaces(e, p)
  {
    hide Placed, ExpectFrom, SpiTransfer, Ending, HeaderFields, EndPlaces, ReadU32Le;
    ExpectLength(Magic, 0);
    ExpectLength(Tail, 0);
    TransferLength("payload_wait");
    BlockLengths();
    hide BootStart, Checks, LoopSetup, PayloadByte;
    var tail := ExpectFrom(Tail, 0) + Body();
    var fields := HeaderFields() + tail;
    PlacedSplit(e, p, BootStart(), ExpectFrom(Magic, 0) + fields);
    PlacedSplit(e, p + 11, ExpectFrom(Magic, 0), fields);
    PlacedSplit(e, p + 71, HeaderFields(), tail);
    FieldPlaces(e, p + 71);
    PlacedSplit(e, p + 291, ExpectFrom(Tail, 0), Body());
    PlacedSplit(e, p + 471, Checks(), LoopSetup() + (PayloadLoop() + Ending()));
    PlacedSplit(e, p + 488, LoopSetup(), PayloadLoop() + Ending());
    PlacedSplit(e, p + 494, PayloadLoop(), Ending());
    PlacedSplit(e, p + 494, SpiTransfer(0xFF, "payload_wait"), PayloadByte());
    EndingPlaces(e, p);
  }

  // ------------------------------------------------------------------ storing and printing

  /** Storing a word through t0, which holds the SRAM base. */
  lemma SramStore(m: Machine, r: reg, off: nat, card: Card)
    requires Sane(m) && Get(m, T0) == BASE && off + 4 <= BYTES
    ensures Exec(Emit(Sw(r, off, T0)), m, card) == m.(bus := m.bus.(sram := Write32(m.bus.sram, off, Get(m, r))))
  {
  }

  /** Only SRAM differs. */
  predicate OnlySram(m: Machine, n: Machine) { n.bus == m.bus.(sram := n.bus.sram) }

  /** The next word of a block of words stored one after another. */
  lemma StoreNext(e: Env, p0: nat, m0: Machine, p: nat, macro: seq<Call>, k: nat, m: Machine, r: reg, base: Sram,
                  ws: seq<word>, n: nat)
    returns (o: Machine)
    requires Loadable(e) && Placed(e, p, macro) && k < |macro| && Leads(e, p0, m0, p + k, m) && Sane(m)
    requires n < |ws| <= 8 && macro[k] == Emit(Sw(r, 4 * n, T0)) && Get(m, T0) == BASE && Get(m, r) == ws[n]
    requires m.bus.sram == Stored(base, ws, n)
    ensures Leads(e, p0, m0, p + k + 1, o) && Sane(o) && o.regs == m.regs && OnlySram(m, o)
    ensures o.bus.sram == Stored(base, ws, n + 1)
  {
    hide Leads, Loadable, Placed, Exec;
    o := Do(e, p0, m0, p, macro, k, m);
    SramStore(m, r, 4 * n, e.card);
  }

  /** The bytes a text prints: the low byte of each character. */
  function TextBytes(text: string): seq<byte>
    decreases |text|
  {
    if text == [] then [] else [text[0] as int % 256] + TextBytes(text[1..])
  }

  /** puts prints its text through t0. */
  lemma {:induction false} PutsPrints(e: Env, p0: nat, m0: Machine, p: nat, text: string, m: Machine)
    returns (n: Machine)
    requires Loadable(e) && Placed(e, p, Puts(text)) && Leads(e, p0, m0, p, m) && Sane(m) && Get(m, S0) == UART_BASE
    ensures Leads(e, p0, m0, p + 2 * |text|, n) && Sane(n) && Keeps(m, n, {T0})
    ensures n.bus == m.bus.(printed := m.bus.printed + TextBytes(text))
    decreases |text|
  {
    hide Leads, Loadable, Placed, Exec;
    if text == [] {
      n := m;
      assert m.bus.printed + TextBytes(text) == m.bus.printed;
    } else {
      var two := [Load(T0, text[0] as int), Emit(Sw(T0, 4, S0))];
      PlacedSplit(e, p, two, Puts(text[1..]));
      var m1 := Do(e, p0, m0, p, two, 0, m);
      LoadEffect(m, T0, text[0] as int, e.card);
      var m2 := Do(e, p0, m0, p, two, 1, m1);
      UartStore(m1, T0, e.card);
      n := PutsPrints(e, p0, m0, p + 2, text[1..], m2);
      assert m.bus.printed + [text[0] as int % 256] + TextBytes(text[1..]) == m.bus.printed + TextBytes(text);
    }
  }

  lemma LoadEffect(m: Machine, rd: reg, v: int, card: Card)
    requires Sane(m) && 0 <= v < W32
    ensures Exec(Load(rd, v), m, card) == Set(m, rd, v)
  {
  }

  // ------------------------------------------------------------------ clearing and the header

  lemma ClearsInfo(e: Env, p: nat, m: Machine) returns (n: Machine)
    requires Loadable(e) && Placed(e, p, BootStart()) && Sane(m)
    ensures Leads(e, p, m, p + 11, n) && Sane(n) && Keeps(m, n, {T0, S5})
    ensures n.bus == m.bus.(sram := Cleared(m.bus.sram))
  {
    hide Leads, Loadable, Placed, Stored;
    var macro := BootStart();
    assert p <= |e.calls| by { PlacedFits(e, p, macro); }
    LeadsRefl(e, p, m);
    var m1 := Do(e, p, m, p, macro, 0, m);
    var m2 := Do(e, p, m, p, macro, 1, m1);
    var m3 := Do(e, p, m, p, macro, 2, m2);
    var s := m.bus.sram;
    assert m3.bus.sram == Stored(s, ZEROS, 0) by { StoredNone(s, ZEROS); }
    var n0 := StoreNext(e, p, m, p, macro, 3, m3, ZERO, s, ZEROS, 0);
    var n1 := StoreNext(e, p, m, p, macro, 4, n0, ZERO, s, ZEROS, 1);
    var n2 := StoreNext(e, p, m, p, macro, 5, n1, ZERO, s, ZEROS, 2);
    var n3 := StoreNext(e, p, m, p, macro, 6, n2, ZERO, s, ZEROS, 3);
    var n4 := StoreNext(e, p, m, p, macro, 7, n3, ZERO, s, ZEROS, 4);
    var n5 := StoreNext(e, p, m, p, macro, 8, n4, ZERO, s, ZEROS, 5);
    var n6 := StoreNext(e, p, m, p, macro, 9, n5, ZERO, s, ZEROS, 6);
    n := StoreNext(e, p, m, p, macro, 10, n6, ZERO, s, ZEROS, 7);
  }

  // ------------------------------------------------------------------ the constant header bytes

  lemma ExpectPlaces(e: Env, p: nat, part: Part, i: nat)
    requires i < |Expected(part)| && Placed(e, p, ExpectFrom(part, i))
    ensures Placed(e, p, ExpectOne(part, i)) && Placed(e, p + 15, ExpectFrom(part, i + 1))
  {
    hide Placed;
    assert |ExpectOne(part, i)| == 15;
    PlacedSplit(e, p, ExpectOne(part, i), ExpectFrom(part, i + 1));
  }

  /** The expected bytes from the i-th on: past them if the card delivers them all,
      otherwise to the label for a bad magic word right after the first wrong byte. */
  lemma {:induction false} ExpectsAll(e: Env, p0: nat, m0: Machine, p: nat, part: Part, i: nat, q: nat, m: Machine)
    returns (n: Machine)
    requires Loadable(e) && i <= |Expected(part)| && Placed(e, p, ExpectFrom(part, i))
    requires MarkedAt(e, q, "boot_bad_magic")
    requires Leads(e, p0, m0, p, m) && Sane(m) && Get(m, S3) == SPI_BASE && m.bus.spi.busy == 0
    ensures var left := |Expected(part)| - i;
      var k := Matched(e.card.data, m.bus.spi.taken, Expected(part)[i..]);
      && Did(m, n, {T0, T1}, if k == left then left else k + 1)
      && Leads(e, p0, m0, if k == left then p + 15 * left else q, n)
    decreases |Expected(part)| - i
  {
    hide Leads, Loadable, Placed, MarkedAt, Did, Expected, WaitName, OkName, SpiExpect;
    if i == |Expected(part)| {
      n := m;
      DidNothing(m);
    } else {
      ExpectPlaces(e, p, part, i);
      var rest := Expected(part)[i..];
      assert rest[1..] == Expected(part)[i + 1..];
      n := Expects(e, p0, m0, p, Expected(part)[i], WaitName(part, i), OkName(part, i), "boot_bad_magic", q, m);
      if e.card.data(m.bus.spi.taken) == Expected(part)[i] {
        var m1 := n;
        DidState(m, m1, {T0, T1}, 1);
        n := ExpectsAll(e, p0, m0, p + 15, part, i + 1, q, m1);
        var left, k := |Expected(part)| - (i + 1), Matched(e.card.data, m1.bus.spi.taken, Expected(part)[i + 1..]);
        DidThen(m, m1, n, {T0, T1}, {T0, T1}, 1, if k == left then left else k + 1);
      }
    }
  }

  lemma DidNothing(m: Machine)
    requires Sane(m) && m.bus.spi.busy == 0
    ensures Did(m, m, {T0, T1}, 0)
  {
  }

  lemma DidState(m: Machine, n: Machine, changed: set<reg>, count: nat)
    requires Did(m, n, changed, count) && S3 !in changed && S0 !in changed
    ensures Sane(n) && Get(n, S3) == Get(m, S3) && Get(n, S0) == Get(m, S0) && SameMemory(m, n)
    ensures n.bus.spi.busy == 0 && n.bus.spi.taken == m.bus.spi.taken + count
  {
  }

  // ------------------------------------------------------------------ the fields

  /** The registers that hold the header. */
  predicate Holds(m: Machine, h: Header)
    requires Sane(m)
  {
    Get(m, S6) == h.load && Get(m, S7) == h.size && Get(m, S8) == h.entry && Get(m, S9) == h.checksum
  }

  const FIELD_REGS: set<reg> := LANES + {S6, S7, S8, S9}

  lemma ReadsPair(e: Env, p0: nat, m0: Machine, p: nat, a: reg, nameA: string, b: reg, nameB: string, m: Machine)
    returns (n: Machine)
    requires Loadable(e) && Placed(e, p, ReadU32Le(a, nameA)) && Placed(e, p + 55, ReadU32Le(b, nameB))
    requires a in {S6, S8} && b in {S7, S9} && Leads(e, p0, m0, p, m)
    requires Sane(m) && Get(m, S3) == SPI_BASE && m.bus.spi.busy == 0
    ensures Leads(e, p0, m0, p + 110, n) && Did(m, n, LANES + {a, b}, 8) && Sane(n)
    ensures Get(n, a) == WordAt(e.card.data, m.bus.spi.taken) && Get(n, b) == WordAt(e.card.data, m.bus.spi.taken + 4)
  {
    hide Leads, Loadable, Placed, Did, ReadU32Le, WordAt;
    var m1 := ReadsWord(e, p0, m0, p, a, nameA, m);
    DidState(m, m1, LANES + {a}, 4);
    n := ReadsWord(e, p0, m0, p + 55, b, nameB, m1);
    DidKeeps(m1, n, LANES + {b}, 4, a);
    DidUnion(m, m1, n, LANES + {a}, LANES + {b}, LANES + {a, b}, 4, 4);
  }

  lemma DidUnion(m: Machine, n: Machine, o: Machine, a: set<reg>, b: set<reg>, c: set<reg>, i: nat, j: nat)
    requires Did(m, n, a, i) && Did(n, o, b, j) && a + b <= c
    ensures Did(m, o, c, i + j)
  {
  }

  lemma ReadsFields(e: Env, p0: nat, m0: Machine, p: nat, m: Machine) returns (n: Machine)
    requires Loadable(e) && HeadPlaces(e, p) && Leads(e, p0, m0, p + 71, m)
    requires Sane(m) && Get(m, S3) == SPI_BASE && m.bus.spi.busy == 0 && m.bus.spi.taken >= 4
    ensures Leads(e, p0, m0, p + 291, n) && Did(m, n, FIELD_REGS, 16) && Sane(n)
    ensures Holds(n, HeaderAt(e.card.data, m.bus.spi.taken - 4))
  {
    hide Leads, Loadable, Placed, Did, ReadU32Le, WordAt, BootStart, ExpectFrom;
    var m1 := ReadsPair(e, p0, m0, p + 71, S6, "boot_load_addr", S7, "boot_size", m);
    DidState(m, m1, LANES + {S6, S7}, 8);
    n := ReadsPair(e, p0, m0, p + 181, S8, "boot_entry", S9, "boot_checksum", m1);
    DidKeeps(m1, n, LANES + {S8, S9}, 8, S6);
    DidKeeps(m1, n, LANES + {S8, S9}, 8, S7);
    DidUnion(m, m1, n, LANES + {S6, S7}, LANES + {S8, S9}, FIELD_REGS, 8, 8);
  }

  // ------------------------------------------------------------------ the range checks

  /** Where the failure block for a status begins. */
  function FailPlace(p: nat, status: word): nat {
    if status == BAD_RANGE then p + 577
    else if status == BAD_SIZE then p + 580
    else if status == BAD_ENTRY then p + 583
    else if status == BAD_CHECKSUM then p + 586
    else p + 574
  }

  lemma FailMarks(e: Env, p: nat)
    requires EndPlaces(e, p)
    ensures MarkedAt(e, p + 574, "boot_bad_magic") && MarkedAt(e, p + 577, "boot_bad_range")
    ensures MarkedAt(e, p + 580, "boot_bad_size") && MarkedAt(e, p + 583, "boot_bad_entry")
    ensures MarkedAt(e, p + 586, "boot_bad_checksum") && MarkedAt(e, p + 589, "boot_fail")
  {
    hide Placed, Puts, BootAccept, MarkedAt;
    var macro := BootReject();
    PlacedMark(e, p + 574, macro, 0, "boot_bad_magic");
    PlacedMark(e, p + 574, macro, 3, "boot_bad_range");
    PlacedMark(e, p + 574, macro, 6, "boot_bad_size");
    PlacedMark(e, p + 574, macro, 9, "boot_bad_entry");
    PlacedMark(e, p + 574, macro, 12, "boot_bad_checksum");
    PlacedMark(e, p + 574, macro, 15, "boot_fail");
  }

  const CHECK_REGS: set<reg> := {T0, T2, S11}

  /** Registers outside `changed` and everything on the bus are as before. */
  ghost predicate Computed(m: Machine, n: Machine, changed: set<reg>) {
    Sane(m) && Sane(n) && Keeps(m, n, changed) && n.bus == m.bus
  }

  /** sltu into t2, then a branch on t2: two calls that test a < b. */
  lemma Compare(e: Env, p0: nat, m0: Machine, p: nat, macro: seq<Call>, k: nat, m: Machine, a: reg, b: reg, q: nat)
    returns (n: Machine)
    requires Loadable(e) && Placed(e, p, macro) && k + 1 < |macro| && Leads(e, p0, m0, p + k, m) && Sane(m)
    requires macro[k] == Emit(Sltu(T2, a, b))
    requires macro[k + 1].Emit? && (macro[k + 1].i.Bne? || macro[k + 1].i.Beq?)
    requires macro[k + 1].i.rs1 == T2 && macro[k + 1].i.rs2 == ZERO && MarkedAt(e, q, macro[k + 1].i.to)
    ensures Computed(m, n, CHECK_REGS) && Keeps(m, n, {T2})
    ensures Leads(e, p0, m0, if (Get(m, a) < Get(m, b)) == macro[k + 1].i.Bne? then q else p + k + 2, n)
  {
    hide Leads, Loadable, Placed, MarkedAt;
    n := Do(e, p0, m0, p, macro, k, m);
    Jump(e, p0, m0, p, macro, k + 1, n, q);
  }

  /** Range and size: to the address arithmetic if nothing is wrong. */
  lemma ChecksStart(e: Env, p0: nat, m0: Machine, p: nat, m: Machine, h: Header) returns (n: Machine)
    requires Loadable(e) && BodyPlaces(e, p) && EndPlaces(e, p) && Leads(e, p0, m0, p + 471, m) && Sane(m)
    requires Holds(m, h)
    ensures Computed(m, n, CHECK_REGS)
    ensures Leads(e, p0, m0, if h.load < BASE then p + 577
                             else if h.size == 0 || BYTES < h.size then p + 580 else p + 478, n)
  {
    hide Leads, Loadable, Placed, MarkedAt, EndPlaces, SpiTransfer, LoopSetup, PayloadByte;
    FailMarks(e, p);
    var macro := Checks();
    var m1 := Do(e, p0, m0, p + 471, macro, 0, m);
    n := Compare(e, p0, m0, p + 471, macro, 1, m1, S6, T0, p + 577);
    if h.load >= BASE {
      Jump(e, p0, m0, p + 471, macro, 3, n, p + 580);
      if h.size != 0 {
        var m2 := Do(e, p0, m0, p + 471, macro, 4, n);
        n := Compare(e, p0, m0, p + 471, macro, 5, m2, T0, S7, p + 580);
      }
    }
  }

  /** The end of the image, by 32-bit addition and a test for wrapping. */
  lemma ChecksEnd(e: Env, p0: nat, m0: Machine, p: nat, m: Machine, h: Header) returns (n: Machine)
    requires Loadable(e) && BodyPlaces(e, p) && EndPlaces(e, p) && Leads(e, p0, m0, p + 478, m) && Sane(m)
    requires Holds(m, h)
    ensures Computed(m, n, CHECK_REGS) && Get(n, S11) == (h.load + h.size) % W32
    ensures var end := (h.load + h.size) % W32;
      Leads(e, p0, m0, if end < h.load || BASE + BYTES < end then p + 577 else p + 484, n)
  {
    hide Leads, Loadable, Placed, MarkedAt, EndPlaces, SpiTransfer, LoopSetup, PayloadByte;
    FailMarks(e, p);
    var macro := Checks();
    var m1 := Do(e, p0, m0, p + 471, macro, 7, m);
    n := Compare(e, p0, m0, p + 471, macro, 8, m1, S11, S6, p + 577);
    if Get(m1, S11) >= h.load {
      var m2 := Do(e, p0, m0, p + 471, macro, 10, n);
      n := Compare(e, p0, m0, p + 471, macro, 11, m2, T0, S11, p + 577);
    }
  }

  lemma ChecksEntry(e: Env, p0: nat, m0: Machine, p: nat, m: Machine, h: Header, end: word) returns (n: Machine)
    requires Loadable(e) && BodyPlaces(e, p) && EndPlaces(e, p) && Leads(e, p0, m0, p + 484, m) && Sane(m)
    requires Holds(m, h)
    requires Get(m, S11) == end
    ensures Computed(m, n, CHECK_REGS)
    ensures Leads(e, p0, m0, if h.entry < h.load || !(h.entry < end) then p + 583 else p + 488, n)
  {
    hide Leads, Loadable, Placed, MarkedAt, EndPlaces, SpiTransfer, LoopSetup, PayloadByte;
    FailMarks(e, p);
    var macro := Checks();
    n := Compare(e, p0, m0, p + 471, macro, 13, m, S8, S6, p + 583);
    if h.entry >= h.load {
      n := Compare(e, p0, m0, p + 471, macro, 15, n, S8, S11, p + 583);
    }
  }

  /** The checks go on to the payload exactly when the header is legal, and otherwise to the
      block of the status the specification names. */
  lemma ChecksRun(e: Env, p0: nat, m0: Machine, p: nat, m: Machine, h: Header) returns (n: Machine)
    requires Loadable(e) && BodyPlaces(e, p) && EndPlaces(e, p) && Leads(e, p0, m0, p + 471, m) && Sane(m)
    requires Holds(m, h)
    ensures Computed(m, n, CHECK_REGS)
    ensures Leads(e, p0, m0, if AsmVerdict(h) == OK then p + 488 else FailPlace(p, AsmVerdict(h)), n)
  {
    hide Leads, Loadable, BodyPlaces, EndPlaces;
    n := ChecksStart(e, p0, m0, p, m, h);
    if h.load >= BASE && h.size != 0 && h.size <= BYTES {
      var m1 := ChecksEnd(e, p0, m0, p, n, h);
      n := m1;
      var end := (h.load + h.size) % W32;
      if end >= h.load && BASE + BYTES >= end {
        n := ChecksEntry(e, p0, m0, p, m1, h, end);
      }
    }
  }

  // ------------------------------------------------------------------ failure

  /** After a rejected attempt. */
  ghost predicate Failed(m: Machine, n: Machine, status: word) {
    && Sane(m) && Sane(n)
    && Keeps(m, n, {T0, A4, S5}) && Get(n, S5) == 0
    && n.bus == m.bus.(sram := Write32(m.bus.sram, 20, status), printed := m.bus.printed + TextBytes(ERROR_TEXT))
  }

  predicate Failure(status: word) { status in {BAD_MAGIC, BAD_RANGE, BAD_SIZE, BAD_ENTRY, BAD_CHECKSUM} }

  lemma FailStatus(e: Env, p0: nat, m0: Machine, p: nat, m: Machine, status: word) returns (n: Machine)
    requires Loadable(e) && EndPlaces(e, p) && Leads(e, p0, m0, FailPlace(p, status), m) && Sane(m) && Failure(status)
    ensures Leads(e, p0, m0, p + 589, n) && Computed(m, n, {A4}) && Get(n, A4) == status
  {
    hide Leads, Loadable, Placed, Puts, MarkedAt;
    FailMarks(e, p);
    var macro := BootReject();
    var k: nat := FailPlace(p, status) - (p + 574);
    assert macro[k].Mark? && macro[k + 1] == Load(A4, status) && macro[k + 2] == J("boot_fail");
    var m1 := Do(e, p0, m0, p + 574, macro, k, m);
    n := Do(e, p0, m0, p + 574, macro, k + 1, m1);
    Jump(e, p0, m0, p + 574, macro, k + 2, n, p + 589);
  }

  /** A rejection records its status, reports, and returns to the command loop. */
  lemma Fails(e: Env, p0: nat, m0: Machine, p: nat, m: Machine, status: word, ml: nat) returns (n: Machine)
    requires Loadable(e) && EndPlaces(e, p) && Leads(e, p0, m0, FailPlace(p, status), m) && Sane(m) && Failure(status)
    requires Get(m, S0) == UART_BASE && MarkedAt(e, ml, "main_loop")
    ensures Leads(e, p0, m0, ml, n) && Failed(m, n, status)
  {
    hide Leads, Loadable, Placed, Puts, MarkedAt, Exec, TextBytes;
    var macro := BootReject();
    var m1 := FailStatus(e, p0, m0, p, m, status);
    var m2 := Do(e, p0, m0, p + 574, macro, 15, m1);
    MarkStays(macro[15], m1, e.card);
    var m3 := Do(e, p0, m0, p + 574, macro, 16, m2);
    LoadEffect(m2, S5, 0, e.card);
    var m4 := Do(e, p0, m0, p + 574, macro, 17, m3);
    LoadEffect(m3, T0, BASE, e.card);
    var m5 := Do(e, p0, m0, p + 574, macro, 18, m4);
    SramStore(m4, A4, 20, e.card);
    n := PutsPrints(e, p0, m0, p + 593, ERROR_TEXT, m5);
    Jump(e, p0, m0, p + 615, [J("main_loop")], 0, n, ml);
  }
}
