/** The C boot ROM: the loader, the memory test and the keyboard, on memory updated in place. */
module BootMonitor {
  import opened Bits
  import opened UnifiedMem
  import opened BootSpec

  const RAMTEST_MIN: word := BASE + 0x200
  const RAMTEST_LIMIT: word := BASE + BYTES - 0x200
  const PATTERNS: seq<word> := [0x1357_9BDF, 0x2468_ACE0, 0x0F0F_55AA, 0xA5A5_F00F]

  /** Everything the monitor keeps: SRAM, with the boot information block at its start, the
      loader's two statics, the scan-code prefixes, the LED, the SPI divider, and how far the
      card was read. */
  datatype Mon = Mon(
    sram: Sram, taken: nat, loaded: bool, entry: word, breakPrefix: bool, extended: bool, led: bool, divider: half)

  // ------------------------------------------------------------------ specification

  function InfoWord(sram: Sram, k: nat): word
    requires k < 8
  {
    Read32(sram, 4 * k)
  }

  function WithInfoWord(sram: Sram, k: nat, v: word): Sram
    requires k < 8
  {
    Write32(sram, 4 * k, v)
  }

  function Booted(s: Mon, data: Stream): Mon {
    var o := CBoot(s.sram, data, s.taken);
    s.(sram := o.sram, taken := o.taken, loaded := o.status == OK, divider := 250,
       entry := if o.status == OK then o.header.entry else 0)
  }

  /** Rounded up to 32 bytes, on 32-bit words. */
  function AlignUp(addr: word): word { Rv32.AndWord((addr + 31) % W32, 0xFFFF_FFE0) }

  function TestBase(s: Mon): word {
    if s.loaded then
      var aligned := AlignUp((InfoWord(s.sram, 1) + InfoWord(s.sram, 2)) % W32);
      if aligned > RAMTEST_MIN then aligned else RAMTEST_MIN
    else RAMTEST_MIN
  }

  /** The first n patterns written one after another from an offset on. */
  function Patterned(sram: Sram, off: nat, n: nat): Sram
    requires n <= 4 && off + 16 <= BYTES
  {
    if n == 0 then sram else Write32(Patterned(sram, off, n - 1), off + 4 * (n - 1), PATTERNS[n - 1])
  }

  /** A recorded image lies in SRAM, so what the memory test computes from it does too. */
  predicate InBounds(s: Mon) { s.loaded ==> InfoWord(s.sram, 1) + InfoWord(s.sram, 2) <= BASE + BYTES }

  lemma AlignedUp(addr: word)
    requires addr <= BASE + BYTES
    ensures addr <= AlignUp(addr) <= BASE + BYTES && AlignUp(addr) % 32 == 0 && AlignUp(addr) < addr + 32
  {
    hide And;
    ClearLowBits(addr + 31);
    RoundUp(addr);
  }

  lemma RoundUp(addr: word)
    requires addr <= BASE + BYTES
    ensures addr <= (addr + 31) / 32 * 32 <= BASE + BYTES && (addr + 31) / 32 * 32 % 32 == 0
    ensures (addr + 31) / 32 * 32 < addr + 32
  {
    var q := (addr + 31) / 32;
    assert 32 * q <= addr + 31 < 32 * q + 32;
    DivModUnique(32 * q, 32, q, 0);
  }

  /** Masking with the complement of 31 rounds down to a multiple of 32. */
  lemma ClearLowBits(a: word)
    ensures And(a, 0xFFFF_FFE0) == a / 32 * 32
  {
    hide And;
    And32(a);
    Mask27(a / 32);
    assert a / 2 / 2 / 2 / 2 / 2 == a / 32;
  }

  lemma Mask27(b: nat)
    requires b < 0x800_0000
    ensures And(b, 0x7FF_FFFF) == b
  {
    hide And;
    Pow2Add(24, 3);
    Pow2Values();
    AndLowMask(b, 27);
  }

  lemma And32(a: nat)
    ensures And(a, 0xFFFF_FFE0) == 32 * And(a / 2 / 2 / 2 / 2 / 2, 0x7FF_FFFF)
  {
    AndEven(a, 0x7FFF_FFF0);
    AndEven(a / 2, 0x3FFF_FFF8);
    AndEven(a / 2 / 2, 0x1FFF_FFFC);
    AndEven(a / 2 / 2 / 2, 0xFFF_FFFE);
    AndEven(a / 2 / 2 / 2 / 2, 0x7FF_FFFF);
  }

  lemma AndEven(a: nat, half: nat)
    requires half > 0
    ensures And(a, 2 * half) == 2 * And(a / 2, half)
  {
  }

  lemma TestBaseInRange(s: Mon)
    requires InBounds(s)
    ensures RAMTEST_MIN <= TestBase(s) <= BASE + BYTES
    ensures s.loaded ==> InfoWord(s.sram, 1) + InfoWord(s.sram, 2) <= TestBase(s)
    ensures TestBase(s) == 0x1000_0200
         || (s.loaded && TestBase(s) % 32 == 0 && TestBase(s) < InfoWord(s.sram, 1) + InfoWord(s.sram, 2) + 32)
  {
    hide AlignUp, InfoWord;
    if s.loaded { AlignedUp(InfoWord(s.sram, 1) + InfoWord(s.sram, 2)); }
  }

  /** The rounded base is a multiple of 32, so the test is inside SRAM whenever the limit
      check passes, whatever was recorded: the sum in the check cannot wrap. */
  lemma TestFits(s: Mon)
    ensures RAMTEST_MIN <= TestBase(s) <= W32 - 32
    ensures (TestBase(s) + 16) % W32 <= RAMTEST_LIMIT <==> TestBase(s) + 16 <= RAMTEST_LIMIT
  {
    hide InfoWord, And;
    var sum := (InfoWord(s.sram, 1) + InfoWord(s.sram, 2)) % W32;
    ClearLowBits((sum + 31) % W32);
    DivModUnique(TestBase(s) + 16, W32, 0, TestBase(s) + 16);
  }

  /** The test writes its patterns behind the image, if they fit below the limit. */
  function RamTested(s: Mon): Mon {
    hide TestBase;
    TestFits(s);
    if (TestBase(s) + 16) % W32 > RAMTEST_LIMIT then s
    else s.(sram := Patterned(s.sram, TestBase(s) - BASE, 4))
  }

  function DecodePs2(code: byte): (c: char)
    ensures (c as int) < 128
  {
    match code
    case 0x1C => 'a' case 0x21 => 'c' case 0x22 => 'x' case 0x32 => 'b' case 0x34 => 'g'
    case 0x33 => 'h' case 0x43 => 'i' case 0x42 => 'k' case 0x4B => 'l' case 0x3A => 'm'
    case 0x31 => 'n' case 0x4D => 'p' case 0x2D => 'r' case 0x2C => 't' case 0x2A => 'v'
    case _ => '\0'
  }

  /** The make codes, in PS/2 scan code set 2, of the letters the monitor knows. */
  function MakeCode(letter: char): (code: byte)
    ensures code != 0 ==> 'a' <= letter <= 'z'
    ensures code != 0xF0 && code != 0xE0
  {
    match letter
    case 'a' => 0x1C case 'b' => 0x32 case 'c' => 0x21 case 'g' => 0x34 case 'h' => 0x33
    case 'i' => 0x43 case 'k' => 0x42 case 'l' => 0x4B case 'm' => 0x3A case 'n' => 0x31
    case 'p' => 0x4D case 'r' => 0x2D case 't' => 0x2C case 'v' => 0x2A case 'x' => 0x22
    case _ => 0
  }

  /** Scan codes mean the letters of their keys: a known letter's code gives that letter, and a
      code that gives anything is a known letter's. */
  lemma KeysDecode(letter: char)
    requires MakeCode(letter) != 0
    ensures DecodePs2(MakeCode(letter)) == letter
  {
  }

  lemma CodesDecode(code: byte)
    requires DecodePs2(code) != '\0'
    ensures MakeCode(DecodePs2(code)) == code
  {
  }

  /** The commands that touch the state; the others only print or use other devices. */
  function Commanded(s: Mon, ch: char, data: Stream): Mon {
    match ch
    case 'b' => Booted(s, data)
    case 'r' => RamTested(s)
    case 'l' => s.(led := !s.led)
    case _ => s
  }

  /** A scan code: a prefix, a swallowed key, or a key remembered in the information block
      and obeyed. */
  function Scanned(s: Mon, code: byte, data: Stream): Mon {
    if code == 0xF0 then s.(breakPrefix := true)
    else if code == 0xE0 then s.(extended := true)
    else if s.breakPrefix || s.extended then s.(breakPrefix := false, extended := false)
    else if DecodePs2(code) == '\0' then s
    else
      RememberKeeps(s.sram, code, DecodePs2(code) as int);
      Commanded(s.(sram := Remembered(s.sram, code, DecodePs2(code) as int)), DecodePs2(code), data)
  }

  /** From a state without prefixes: pressing a known letter's key is remembered and obeyed, and
      releasing it, or pressing or releasing an extended key with the same code, does nothing. */
  lemma KeyStrokes(s: Mon, letter: char, data: Stream)
    requires !s.breakPrefix && !s.extended && MakeCode(letter) != 0
    ensures var code := MakeCode(letter);
      && Scanned(s, code, data) == Commanded(s.(sram := Remembered(s.sram, code, letter as int)), letter, data)
      && Scanned(Scanned(s, 0xF0, data), code, data) == s
      && Scanned(Scanned(s, 0xE0, data), code, data) == s
      && Scanned(Scanned(Scanned(s, 0xE0, data), 0xF0, data), code, data) == s
  {
    hide Commanded, Remembered;
    KeysDecode(letter);
  }

  /** remember_ps2_key */
  function Remembered(sram: Sram, code: byte, ascii: byte): Sram {
    WithInfoWord(WithInfoWord(sram, 6, code), 7, ascii)
  }

  /** A remembered key stands in the last two words of the information block: code, character. */
  lemma KeyRemembered(sram: Sram, code: byte, ascii: byte)
    ensures var r := Remembered(sram, code, ascii); InfoWord(r, 6) == code && InfoWord(r, 7) == ascii
  {
    hide Read32, Write32;
    var m := WithInfoWord(sram, 6, code);
    ReadWrite(sram, 24, code, 24);
    ReadWrite(m, 28, ascii, 24);
    ReadWrite(m, 28, ascii, 28);
  }

  /** What each command does: `b` attempts a boot, `r` writes the four patterns behind the image,
      `l` toggles the LED, and any other leaves the state alone. */
  lemma CommandsDo(s: Mon, ch: char, data: Stream)
    ensures ch == 'b' ==> Commanded(s, ch, data).loaded == (CBoot(s.sram, data, s.taken).status == 1)
    ensures ch == 'b' ==>
      var r, o := Commanded(s, ch, data), CBoot(s.sram, data, s.taken);
      && r.sram == o.sram && r.taken == o.taken && r.divider == 250
      && r.entry == (if o.status == 1 then o.header.entry else 0)
    ensures ch == 'r' && TestBase(s) + 16 <= 0x1000_FE00 ==>
      var r, at := Commanded(s, ch, data).sram, TestBase(s) - 0x1000_0000;
      && Read32(r, at) == 0x1357_9BDF && Read32(r, at + 4) == 0x2468_ACE0
      && Read32(r, at + 8) == 0x0F0F_55AA && Read32(r, at + 12) == 0xA5A5_F00F
    ensures ch == 'r' && TestBase(s) + 16 > 0x1000_FE00 ==> Commanded(s, ch, data) == s
    ensures ch == 'l' ==> Commanded(s, ch, data) == s.(led := !s.led)
    ensures ch != 'b' && ch != 'r' && ch != 'l' ==> Commanded(s, ch, data) == s
    ensures ch != 'b' && ch != 'l' ==> Commanded(s, ch, data).(sram := s.sram) == s
  {
    hide CBoot, TestBase, Read32, Write32;
    TestFits(s);
    if ch == 'r' && TestBase(s) + 16 <= 0x1000_FE00 {
      var r, at := Commanded(s, ch, data).sram, TestBase(s) - BASE;
      PatternsRead(s.sram, at, 4);
      assert Read32(r, at + 4 * 0) == PATTERNS[0] && Read32(r, at + 4 * 1) == PATTERNS[1];
      assert Read32(r, at + 4 * 2) == PATTERNS[2] && Read32(r, at + 4 * 3) == PATTERNS[3];
    }
  }

  lemma RememberKeeps(sram: Sram, code: byte, ascii: byte)
    ensures SameOutside(sram, Remembered(sram, code, ascii), 24, 32)
    ensures forall k | 0 <= k < 6 :: InfoWord(Remembered(sram, code, ascii), k) == InfoWord(sram, k)
  {
    forall k | 0 <= k < 6 ensures InfoWord(Remembered(sram, code, ascii), k) == InfoWord(sram, k) {
      SameRead(sram, Remembered(sram, code, ascii), 24, 32, 4 * k);
    }
  }

  // ------------------------------------------------------------------ the program

  class Monitor {
    const sram: array<byte>
    var taken: nat
    var loaded: bool
    var entry: word
    var breakPrefix: bool
    var extended: bool
    var led: bool
    var divider: half

    ghost predicate Valid() { sram.Length == BYTES }

    ghost function State(): Mon
      requires Valid()
      reads this, sram
    {
      Mon(sram[..], taken, loaded, entry, breakPrefix, extended, led, divider)
    }

    /** Power-on: statics cleared, memory whatever it happens to hold. */
    constructor ()
      ensures Valid() && fresh(sram)
      ensures State() == Mon(sram[..], 0, false, 0, false, false, true, 250)
    {
      sram := new byte[BYTES];
      taken, loaded, entry := 0, false, 0;
      breakPrefix, extended, led, divider := false, false, true, 250;
    }

    method ReadByte(data: Stream) returns (b: byte)
      modifies this`taken
      ensures b == data(old(taken)) && taken == old(taken) + 1
    {
      b := data(taken);
      taken := taken + 1;
    }

    /** spi_read_u32_le: four bytes ORed into their lanes. */
    method ReadU32Le(data: Stream) returns (v: word)
      modifies this`taken
      ensures v == WordAt(data, old(taken)) && taken == old(taken) + 4
    {
      hide Or;
      var b := ReadByte(data);
      OrLane(0, b, 0);
      v := Or(0, b);
      b := ReadByte(data);
      OrLane(v, b, 1);
      v := Or(v, InLane(b, 1));
      b := ReadByte(data);
      OrLane(v, b, 2);
      v := Or(v, InLane(b, 2));
      b := ReadByte(data);
      OrLane(v, b, 3);
      v := Or(v, InLane(b, 3));
    }

    method SetWord(off: nat, v: word)
      requires Valid() && off + 4 <= BYTES
      modifies sram
      ensures sram[..] == Write32(old(sram[..]), off, v)
    {
      hide ByteOf;
      sram[off] := ByteOf(v, 0);
      sram[off + 1] := ByteOf(v, 1);
      sram[off + 2] := ByteOf(v, 2);
      sram[off + 3] := ByteOf(v, 3);
    }

    method ClearBootInfo()
      requires Valid()
      modifies sram
      ensures sram[..] == Cleared(old(sram[..]))
    {
      hide Write32;
      for i := 0 to 8
        invariant sram[..] == Stored(old(sram[..]), ZEROS, i)
      {
        SetWord(4 * i, 0);
      }
    }

    method WriteBootInfo(h: Header)
      requires Valid()
      modifies sram
      ensures sram[..] == WithInfo(old(sram[..]), h)
    {
      hide Write32, Stored;
      ghost var start, ws := sram[..], InfoWords(h);
      StoredNone(start, ws);
      SetWord(0, INFO_MAGIC);
      StoredStep(start, ws, 0);
      SetWord(4, h.load);
      StoredStep(start, ws, 1);
      SetWord(8, h.size);
      StoredStep(start, ws, 2);
      SetWord(12, h.entry);
      StoredStep(start, ws, 3);
      SetWord(16, h.checksum);
      StoredStep(start, ws, 4);
      SetWord(20, OK);
      StoredStep(start, ws, 5);
      SetWord(24, 0);
      StoredStep(start, ws, 6);
      SetWord(28, 0);
      StoredStep(start, ws, 7);
    }

    /** The copy loop of retry_sd_boot: bytes to memory and, lane by lane, into the sum. */
    method CopyPayload(data: Stream, off: nat, size: nat) returns (checksum: word)
      requires Valid() && off + size <= BYTES
      modifies sram, this`taken
      ensures taken == old(taken) + size && sram[..] == Copied(old(sram[..]), off, data, old(taken), size)
      ensures checksum == PaddedSum(Bytes(data, old(taken), size))
    {
      hide Or, Partial, SumWords, PaddedWord;
      ghost var payload, start, at := Bytes(data, taken, size), sram[..], taken;
      checksum := 0;
      var checksumWord: word := 0;
      PartialNone(payload);
      for i := 0 to size
        invariant taken == at + i && sram[..] == Copied(start, off, data, at, i)
        invariant checksumWord == Partial(payload, i) && checksum == SumWords(payload, i / 4)
      {
        ghost var q, k: nat := i / 4, i % 4;
        assert i == 4 * q + k;
        PartialStep(payload, q, k);
        var b := ReadByte(data);
        sram[off + i] := b;
        checksumWord := Or(checksumWord, InLane(b, i % 4));
        if i % 4 == 3 {
          checksum := (checksum + checksumWord) % W32;
          checksumWord := 0;
          SumNext(payload, q);
        }
        NextLane(q, k);
      }
      PartialLast(payload);
      if size % 4 != 0 {
        checksum := (checksum + checksumWord) % W32;
      }
    }

    method Reject(status: word)
      requires Valid()
      modifies sram
      ensures sram[..] == WithStatus(old(sram[..]), status)
    {
      SetWord(20, status);
    }

    /** The eight header words, in order. */
    method ReadHeader(data: Stream) returns (magic: word, h: Header, version: word, reserved0: word, reserved1: word)
      modifies this`taken
      ensures magic == WordAt(data, old(taken)) && h == HeaderAt(data, old(taken)) && taken == old(taken) + 32
      ensures version == WordAt(data, old(taken) + 20)
      ensures reserved0 == WordAt(data, old(taken) + 24) && reserved1 == WordAt(data, old(taken) + 28)
    {
      hide WordAt;
      magic := ReadU32Le(data);
      var loadAddr := ReadU32Le(data);
      var sizeBytes := ReadU32Le(data);
      var entryAddr := ReadU32Le(data);
      var expected := ReadU32Le(data);
      version := ReadU32Le(data);
      reserved0 := ReadU32Le(data);
      reserved1 := ReadU32Le(data);
      h := Header(loadAddr, sizeBytes, entryAddr, expected);
    }

    /** The boot attempt; `text` is what it prints. */
    method RetrySdBoot(data: Stream) returns (text: string)
      requires Valid()
      modifies this`taken, this`loaded, this`entry, this`divider, sram
      ensures State() == Booted(old(State()), data)
      ensures text == if loaded then C_OK_TEXT else C_ERROR_TEXT
    {
      hide WordAt, HeaderAt, Cleared, WithStatus, WithInfo, PaddedSum, Bytes, Copied;
      text, divider := C_ERROR_TEXT, 250;
      loaded, entry := false, 0;
      ClearBootInfo();
      var magic, h, version, reserved0, reserved1 := ReadHeader(data);
      if magic != HEADER_MAGIC {
        Reject(BAD_MAGIC);
        return;
      }
      if version != 1 || reserved0 != 0 || reserved1 != 0 {
        Reject(BAD_MAGIC);
        return;
      }
      if h.load < BASE || h.size == 0 {
        Reject(if h.size == 0 then BAD_SIZE else BAD_RANGE);
        return;
      }
      var loadOffset := h.load - BASE;
      if loadOffset > BYTES || h.size > BYTES - loadOffset {
        Reject(BAD_RANGE);
        return;
      }
      if h.entry < h.load || h.entry >= (h.load + h.size) % W32 {
        Reject(BAD_ENTRY);
        return;
      }
      var checksum := CopyPayload(data, loadOffset, h.size);
      if checksum != h.checksum {
        Reject(BAD_CHECKSUM);
        return;
      }
      WriteBootInfo(h);
      entry := h.entry;
      loaded := true;
      text := C_OK_TEXT;
    }

    function GetWord(off: nat): (v: word)
      requires Valid() && off + 4 <= BYTES
      reads sram
      ensures v == Read32(sram[..], off)
    {
      WordOf(sram[off], sram[off + 1], sram[off + 2], sram[off + 3])
    }

    /** The memory test.  Where it fits, what it reads back is what it wrote. */
    method RunRamTest() returns (passed: bool)
      requires Valid()
      modifies sram
      ensures State() == RamTested(old(State()))
      ensures passed <==> old((TestBase(State()) + 16) % W32 <= RAMTEST_LIMIT)
    {
      hide Write32, Read32, AlignUp;
      TestFits(State());
      var testBase := RAMTEST_MIN;
      if loaded {
        var imageEnd := (GetWord(4) + GetWord(8)) % W32;
        var aligned := AlignUp(imageEnd);
        if aligned > testBase { testBase := aligned; }
      }
      assert testBase == TestBase(State());
      if (testBase + 16) % W32 > RAMTEST_LIMIT { return false; }
      ghost var start := sram[..];
      var off := testBase - BASE;
      for i := 0 to 4
        invariant sram[..] == Patterned(start, off, i)
      {
        SetWord(off + 4 * i, PATTERNS[i]);
      }
      PatternsRead(start, off, 4);
      for i := 0 to 4
        invariant sram[..] == Patterned(start, off, 4)
      {
        if GetWord(off + 4 * i) != PATTERNS[i] { return false; }
      }
      return true;
    }

    /** One command character. */
    method Command(ch: char, data: Stream)
      requires Valid()
      modifies this`taken, this`loaded, this`entry, this`divider, this`led, sram
      ensures State() == Commanded(old(State()), ch, data)
    {
      hide Booted, RamTested;
      match ch
      case 'b' => var text := RetrySdBoot(data);
      case 'r' => var passed := RunRamTest();
      case 'l' => led := !led;
      case _ =>
    }

    /** poll_ps2_command and the command it yields. */
    method ScanCode(code: byte, data: Stream)
      requires Valid()
      modifies this, sram
      ensures State() == Scanned(old(State()), code, data)
    {
      hide Commanded, Write32;
      if code == 0xF0 {
        breakPrefix := true;
        return;
      }
      if code == 0xE0 {
        extended := true;
        return;
      }
      if breakPrefix || extended {
        breakPrefix, extended := false, false;
        return;
      }
      var ascii := DecodePs2(code);
      if ascii == '\0' { return; }
      RememberKeeps(sram[..], code, ascii as int);
      SetWord(24, code);
      SetWord(28, ascii as int);
      Command(ascii, data);
    }
  }

  lemma {:induction false} PatternsRead(sram: Sram, off: nat, n: nat)
    requires n <= 4 && off + 16 <= BYTES
    ensures SameOutside(sram, Patterned(sram, off, n), off, off + 4 * n)
    ensures forall k | 0 <= k < n :: Read32(Patterned(sram, off, n), off + 4 * k) == PATTERNS[k]
  {
    hide Read32;
    if n == 0 {
    } else {
      PatternsRead(sram, off, n - 1);
      var before := Patterned(sram, off, n - 1);
      WriteStaysInside(before, off + 4 * (n - 1), PATTERNS[n - 1]);
      forall k | 0 <= k < n ensures Read32(Patterned(sram, off, n), off + 4 * k) == PATTERNS[k] {
        ReadWrite(before, off + 4 * (n - 1), PATTERNS[n - 1], off + 4 * k);
      }
    }
  }
}
