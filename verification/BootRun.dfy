/** The whole boot attempt of the assembly loader. */
module BootRun {
  import opened Bits
  import opened Rv32
  import opened Assembler
  import opened AsmRun
  import opened SpiMacros
  import opened BootSpec
  import opened BootListing
  import opened BootAsm
  import opened BootPayload
  import BootProof

  const BOOT_REGS: set<reg> := {T0, T1, T2, T3, T4, T5, T6, A4, S5, S6, S7, S8, S9, S10, S11}

  /** Partway through an attempt that began in m: only its own registers changed, nothing
      was printed, and memory and the card are as given. */
  ghost predicate Stage(m: Machine, n: Machine, sram: Sram, taken: nat) {
    && Sane(m) && Sane(n)
    && Keeps(m, n, BOOT_REGS) && n.bus.printed == m.bus.printed
    && n.bus.sram == sram && Idle(n, taken)
    && Get(n, S0) == UART_BASE && Get(n, S3) == SPI_BASE
  }

  function Report(status: word): seq<byte> { TextBytes(if status == OK then OK_TEXT else ERROR_TEXT) }

  /** The attempt ended with this outcome: memory, card and flag are as it says, and on
      acceptance the registers name the image. */
  ghost predicate Ended(m: Machine, n: Machine, o: Outcome) {
    && Sane(m) && Sane(n)
    && Keeps(m, n, BOOT_REGS) && n.bus.printed == m.bus.printed + Report(o.status)
    && n.bus.sram == o.sram && Idle(n, o.taken)
    && Get(n, S5) == (if o.status == OK then 1 else 0)
    && (o.status == OK ==> Holds(n, o.header))
  }

  lemma Rejects(e: Env, p: nat, m: Machine, s: Machine, sram: Sram, taken: nat, status: word, ml: nat)
    returns (n: Machine)
    requires Loadable(e) && EndPlaces(e, p) && Leads(e, p, m, FailPlace(p, status), s) && Failure(status)
    requires Stage(m, s, sram, taken) && MarkedAt(e, ml, "main_loop")
    ensures Leads(e, p, m, ml, n) && Ended(m, n, Rejected(sram, taken, status))
  {
    hide Leads, Loadable, EndPlaces, MarkedAt, TextBytes;
    n := Fails(e, p, m, p, s, status, ml);
  }

  // ------------------------------------------------------------------ acceptance

  /** The word begun joins the sum, if there is one. */
  lemma Totals(e: Env, p: nat, m: Machine, s: Machine, h: Header, start: Sram, at: nat) returns (n: Machine)
    requires Loadable(e) && EndPlaces(e, p) && Leads(e, p, m, p + 535, s)
    requires InLoop(s, h, start, e.card.data, at, h.size)
    ensures Leads(e, p, m, p + 538, n) && Computed(s, n, {S10})
    ensures Get(n, S10) == PaddedSum(Bytes(e.card.data, at, h.size))
  {
    hide Leads, Loadable, Placed, MarkedAt, Puts, BootReject, Exec, Partial, SumWords, Copied, Bytes, PaddedSum;
    var macro := BootAccept();
    PartialLast(Bytes(e.card.data, at, h.size));
    BytesLength(e.card.data, at, h.size);
    PlacedMark(e, p + 535, macro, 2, "payload_checksum_done");
    Jump(e, p, m, p + 535, macro, 0, s, p + 537);
    n := s;
    if Get(s, T4) != 0 {
      n := Do(e, p, m, p + 535, macro, 1, s);
      AddEffect(s, S10, S10, T5, e.card);
    }
    var n' := Do(e, p, m, p + 535, macro, 2, n);
    MarkStays(macro[2], n, e.card);
  }

  lemma BytesLength(data: Stream, at: nat, n: nat)
    ensures |Bytes(data, at, n)| == n
  {
  }

  /** The eight words of the boot information block. */
  lemma Publishes(e: Env, p: nat, m: Machine, s: Machine, h: Header, sram: Sram) returns (n: Machine)
    requires Loadable(e) && EndPlaces(e, p) && Leads(e, p, m, p + 539, s) && Sane(s) && Holds(s, h)
    requires s.bus.sram == sram
    ensures Leads(e, p, m, p + 551, n) && Sane(n) && Keeps(s, n, {T0, T1, S5}) && Get(n, S5) == 1
    ensures n.bus == s.bus.(sram := WithInfo(sram, h))
  {
    hide Leads, Loadable, Placed, Puts, BootReject, Exec, Stored;
    var macro, ws := BootAccept(), InfoWords(h);
    StoredNone(sram, ws);
    var m1 := Do(e, p, m, p + 535, macro, 4, s);
    LoadEffect(s, T0, BASE, e.card);
    var m2 := Do(e, p, m, p + 535, macro, 5, m1);
    LoadEffect(m1, T1, INFO_MAGIC, e.card);
    var n0 := StoreNext(e, p, m, p + 535, macro, 6, m2, T1, sram, ws, 0);
    var n1 := StoreNext(e, p, m, p + 535, macro, 7, n0, S6, sram, ws, 1);
    var n2 := StoreNext(e, p, m, p + 535, macro, 8, n1, S7, sram, ws, 2);
    var n3 := StoreNext(e, p, m, p + 535, macro, 9, n2, S8, sram, ws, 3);
    var n4 := StoreNext(e, p, m, p + 535, macro, 10, n3, S9, sram, ws, 4);
    var m3 := Do(e, p, m, p + 535, macro, 11, n4);
    LoadEffect(n4, T1, OK, e.card);
    var n5 := StoreNext(e, p, m, p + 535, macro, 12, m3, T1, sram, ws, 5);
    var n6 := StoreNext(e, p, m, p + 535, macro, 13, n5, ZERO, sram, ws, 6);
    var n7 := StoreNext(e, p, m, p + 535, macro, 14, n6, ZERO, sram, ws, 7);
    n := Do(e, p, m, p + 535, macro, 15, n7);
    LoadEffect(n7, S5, 1, e.card);
  }

  lemma Accepts(e: Env, p: nat, m: Machine, s: Machine, h: Header, sram: Sram, taken: nat, ml: nat) returns (n: Machine)
    requires Loadable(e) && EndPlaces(e, p) && Leads(e, p, m, p + 539, s) && Stage(m, s, sram, taken) && Holds(s, h)
    requires MarkedAt(e, ml, "main_loop")
    ensures Leads(e, p, m, ml, n) && Ended(m, n, Outcome(WithInfo(sram, h), taken, OK, h))
  {
    hide Leads, Loadable, Placed, MarkedAt, TextBytes, BootReject, BootAccept, Stored, Puts, InfoWords, Ended;
    var m1 := Publishes(e, p, m, s, h, sram);
    n := PutsPrints(e, p, m, p + 551, OK_TEXT, m1);
    EndsWell(m, s, m1, n, h, sram, taken);
    Jump(e, p, m, p + 573, [J("main_loop")], 0, n, ml);
  }

  lemma EndsWell(m: Machine, s: Machine, m1: Machine, n: Machine, h: Header, sram: Sram, taken: nat)
    requires Stage(m, s, sram, taken) && Holds(s, h) && Sane(m1) && Sane(n)
    requires Keeps(s, m1, {T0, T1, S5}) && Get(m1, S5) == 1 && m1.bus == s.bus.(sram := WithInfo(sram, h))
    requires Keeps(m1, n, {T0}) && n.bus == m1.bus.(printed := m1.bus.printed + TextBytes(OK_TEXT))
    ensures Ended(m, n, Outcome(WithInfo(sram, h), taken, OK, h))
  {
    hide TextBytes, Stored, InfoWords;
  }

  /** From the first payload byte to the command loop. */
  lemma Loads(e: Env, p: nat, m: Machine, s: Machine, h: Header, sram: Sram, at: nat, ml: nat) returns (n: Machine)
    requires Loadable(e) && BodyPlaces(e, p) && EndPlaces(e, p) && Leads(e, p, m, p + 488, s)
    requires Stage(m, s, sram, at) && Holds(s, h) && Fits(h) && MarkedAt(e, ml, "main_loop")
    ensures Leads(e, p, m, ml, n) && Ended(m, n, LoadImage(sram, e.card.data, at, h))
  {
    hide Leads, Loadable, BodyPlaces, MarkedAt, Placed, TextBytes, PaddedSum, Bytes, Copied, Stored, Puts, BootReject;
    hide Partial, SumWords, Ended;
    var m1 := SetsUp(e, p, m, p, s, h, at);
    var m2 := AllBytes(e, p, m, p, m1, h, sram, at, 0);
    var m3 := Totals(e, p, m, m2, h, sram, at);
    var copied := Copied(sram, h.load - BASE, e.card.data, at, h.size);
    assert Stage(m, m3, copied, at + h.size);
    FailMarks(e, p);
    Jump(e, p, m, p + 535, BootAccept(), 3, m3, p + 586);
    if PaddedSum(Bytes(e.card.data, at, h.size)) != h.checksum {
      n := Rejects(e, p, m, m3, copied, at + h.size, BAD_CHECKSUM, ml);
    } else {
      n := Accepts(e, p, m, m3, h, copied, at + h.size, ml);
    }
  }

  // ------------------------------------------------------------------ the header

  lemma StageAfter(m: Machine, s: Machine, n: Machine, sram: Sram, taken: nat, changed: set<reg>, count: nat)
    requires Stage(m, s, sram, taken) && Did(s, n, changed, count) && changed <= BOOT_REGS
    ensures Stage(m, n, sram, taken + count)
  {
  }

  lemma StageComputed(m: Machine, s: Machine, n: Machine, sram: Sram, taken: nat, changed: set<reg>)
    requires Stage(m, s, sram, taken) && Computed(s, n, changed) && changed <= BOOT_REGS
    ensures Stage(m, n, sram, taken)
  {
  }

  /** From the fields on, given the magic word. */
  lemma Continues(e: Env, p: nat, m: Machine, s: Machine, sram: Sram, at: nat, ml: nat) returns (n: Machine)
    requires Loadable(e) && HeadPlaces(e, p) && BodyPlaces(e, p) && EndPlaces(e, p) && MarkedAt(e, ml, "main_loop")
    requires Leads(e, p, m, p + 71, s) && Stage(m, s, sram, at + 4)
    ensures Leads(e, p, m, ml, n)
    ensures var t, h := Matched(e.card.data, at + 20, TAIL_BYTES), HeaderAt(e.card.data, at);
      Ended(m, n, if t < 12 then Rejected(sram, at + 20 + t + 1, BAD_MAGIC)
                  else if AsmVerdict(h) != OK then Rejected(sram, at + 32, AsmVerdict(h))
                  else LoadImage(sram, e.card.data, at + 32, h))
  {
    hide Leads, Loadable, BodyPlaces, EndPlaces, MarkedAt, Placed, ReadU32Le, ExpectFrom, BootStart, Matched;
    hide AsmVerdict;
    hide LoadImage, Ended, WordAt, Did, Computed;
    var h := HeaderAt(e.card.data, at);
    var m1 := ReadsFields(e, p, m, p, s);
    StageAfter(m, s, m1, sram, at + 4, FIELD_REGS, 16);
    FailMarks(e, p);
    var m2 := ExpectsAll(e, p, m, p + 291, Tail, 0, p + 574, m1);
    assert Expected(Tail)[0..] == TAIL_BYTES;
    var t := Matched(e.card.data, at + 20, TAIL_BYTES);
    StageAfter(m, m1, m2, sram, at + 20, {T0, T1}, if t == 12 then 12 else t + 1);
    if t < 12 {
      n := Rejects(e, p, m, m2, sram, at + 20 + t + 1, BAD_MAGIC, ml);
    } else {
      HoldsAfter(m1, m2, {T0, T1}, 12, h);
      var m3 := ChecksRun(e, p, m, p, m2, h);
      StageComputed(m, m2, m3, sram, at + 32, CHECK_REGS);
      if AsmVerdict(h) != OK {
        VerdictFails(h);
        n := Rejects(e, p, m, m3, sram, at + 32, AsmVerdict(h), ml);
      } else {
        HoldsComputed(m2, m3, h);
        n := Loads(e, p, m, m3, h, sram, at + 32, ml);
      }
    }
  }

  lemma HoldsAfter(m: Machine, n: Machine, changed: set<reg>, count: nat, h: Header)
    requires Did(m, n, changed, count) && Holds(m, h) && changed <= {T0, T1}
    ensures Sane(n) && Holds(n, h)
  {
  }

  lemma HoldsComputed(m: Machine, n: Machine, h: Header)
    requires Computed(m, n, CHECK_REGS) && Holds(m, h)
    ensures Sane(n) && Holds(n, h)
  {
  }

  lemma VerdictFails(h: Header)
    requires AsmVerdict(h) != OK
    ensures Failure(AsmVerdict(h))
  {
  }

  /** The boot_try listing, wherever it stands in a program, for every memory and every card
      and however long its transfers take, reaches the command loop with the outcome the
      specification gives. */
  lemma BootTryRuns(e: Env, p: nat, m: Machine, ml: nat) returns (n: Machine)
    requires Loadable(e) && Placed(e, p, BootTry()) && MarkedAt(e, ml, "main_loop")
    requires Sane(m) && Get(m, S0) == UART_BASE && Get(m, S3) == SPI_BASE && m.bus.spi.busy == 0
    ensures Leads(e, p, m, ml, n) && Ended(m, n, AsmBoot(m.bus.sram, e.card.data, m.bus.spi.taken))
  {
    hide Leads, Loadable, MarkedAt, Placed, BodyPlaces, EndPlaces, ExpectFrom, BootStart, Matched, AsmVerdict;
    hide LoadImage;
    hide Ended, WordAt, Did, Computed, Stored, BootTry, ReadU32Le;
    Places(e, p);
    var at, sram := m.bus.spi.taken, Cleared(m.bus.sram);
    var m1 := ClearsInfo(e, p, m);
    assert Stage(m, m1, sram, at);
    FailMarks(e, p);
    var m2 := ExpectsAll(e, p, m, p + 11, Magic, 0, p + 574, m1);
    assert Expected(Magic)[0..] == MAGIC_BYTES;
    var k := Matched(e.card.data, at, MAGIC_BYTES);
    StageAfter(m, m1, m2, sram, at, {T0, T1}, if k == 4 then 4 else k + 1);
    if k < 4 {
      n := Rejects(e, p, m, m2, sram, at + k + 1, BAD_MAGIC, ml);
    } else {
      n := Continues(e, p, m, m2, sram, at, ml);
    }
  }

  /** The same of the machine code: running the assembled words from the label boot_try
      reaches the label main_loop with the outcome of the specification. */
  lemma BootTryInMachineCode(e: Env, p: nat, m: Machine, ml: nat) returns (n: Machine, steps: nat)
    requires Assembled(e) && Placed(e, p, BootTry()) && MarkedAt(e, ml, "main_loop") && p <= |e.calls|
    requires Sane(m) && m.pc == PcAt(e, p) && Get(m, S0) == UART_BASE && Get(m, S3) == SPI_BASE && m.bus.spi.busy == 0
    ensures Run(Words(e), e.base, m, e.card, steps) == n && n.pc == PcAt(e, ml)
    ensures Ended(m, n, AsmBoot(m.bus.sram, e.card.data, m.bus.spi.taken))
  {
    hide PcAt, Words, Accepted, AllResolvable, CodeOf, LabelsOf, Placed, Leads, Run, BootTry, AsmBoot, Report;
    var s := BootTryRuns(e, p, m, ml);
    steps := LeadsInMachineCode(e, p, m, ml, s);
    n := s.(pc := PcAt(e, ml));
  }

  /** The machine ended as the C loader does, but for the status word of a rejection. */
  predicate LikeC(m: Machine, n: Machine, c: Outcome)
    requires Sane(n)
  {
    && n.bus.printed == m.bus.printed + TextBytes(Crlf(if c.status == OK then C_OK_TEXT else C_ERROR_TEXT))
    && (Get(n, S5) == 1 <==> c.status == OK)
    && (c.status == OK ==> n.bus.sram == c.sram && Idle(n, c.taken) && Holds(n, c.header))
    && forall i | 0 <= i < BYTES && !(20 <= i < 24) :: n.bus.sram[i] == c.sram[i]
  }

  /** The machine code against the C loader, for every program it stands in, every memory and
      every card: both accept the same images; both print the same, and on acceptance memory and the place on the card
      are identical and the registers name the image; otherwise at most the stored status
      word differs. */
  lemma MachineCodeMatchesC(e: Env, p: nat, m: Machine, ml: nat) returns (n: Machine, steps: nat)
    requires Assembled(e) && Placed(e, p, BootTry()) && MarkedAt(e, ml, "main_loop") && p <= |e.calls|
    requires Sane(m) && m.pc == PcAt(e, p) && Get(m, S0) == UART_BASE && Get(m, S3) == SPI_BASE && m.bus.spi.busy == 0
    ensures Run(Words(e), e.base, m, e.card, steps) == n && n.pc == PcAt(e, ml) && Sane(n) && Keeps(m, n, BOOT_REGS)
    ensures LikeC(m, n, CBoot(m.bus.sram, e.card.data, m.bus.spi.taken))
  {
    hide PcAt, Words, Accepted, AllResolvable, CodeOf, LabelsOf, Placed, Run, BootTry, AsmBoot, CBoot, HeaderGood, Crlf;
    hide PaddedSum, Bytes;
    hide TextBytes;
    n, steps := BootTryInMachineCode(e, p, m, ml);
    OkTexts();
    ErrorTexts();
    BootProof.LoadersAgree(m.bus.sram, e.card.data, m.bus.spi.taken);
  }
}
