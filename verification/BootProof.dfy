/** What the boot ROM guarantees: the two loaders agree, built images load intact, and the
    monitor never damages a loaded image or its record. */
module BootProof {
  import opened Bits
  import opened UnifiedMem
  import opened BootSpec
  import opened BootMonitor

  /** The card delivers these bytes from `at` on. */
  ghost predicate Delivers(data: Stream, at: nat, bytes: seq<byte>) {
    forall i | 0 <= i < |bytes| :: data(at + i) == bytes[i]
  }

  lemma DeliversAppend(data: Stream, at: nat, a: seq<byte>, b: seq<byte>)
    ensures Delivers(data, at, a + b) <==> Delivers(data, at, a) && Delivers(data, at + |a|, b)
  {
    if Delivers(data, at, a + b) {
      forall i | 0 <= i < |a| ensures data(at + i) == a[i] { assert (a + b)[i] == a[i]; }
      forall i | 0 <= i < |b| ensures data(at + |a| + i) == b[i] {
        assert (a + b)[|a| + i] == b[i];
        assert data(at + (|a| + i)) == b[i];
      }
    }
    if Delivers(data, at, a) && Delivers(data, at + |a|, b) {
      forall i | 0 <= i < |a + b| ensures data(at + i) == (a + b)[i] {
        if i >= |a| { assert data(at + |a| + (i - |a|)) == b[i - |a|]; }
      }
    }
  }

  /** u32le_bytes */
  function Le(v: int): seq<byte> {
    var w: word := v % W32;
    [ByteOf(w, 0), ByteOf(w, 1), ByteOf(w, 2), ByteOf(w, 3)]
  }

  lemma WordBytes(data: Stream, at: nat, v: word)
    ensures WordAt(data, at) == v <==> Delivers(data, at, Le(v))
  {
    hide ByteOf, WordOf;
    JoinBytes(data(at), data(at + 1), data(at + 2), data(at + 3));
    SplitWord(v);
    var b := Le(v);
    assert Delivers(data, at, b) ==>
      data(at + 0) == b[0] && data(at + 1) == b[1] && data(at + 2) == b[2] && data(at + 3) == b[3];
  }

  lemma {:induction false} MatchedAll(data: Stream, at: nat, expected: seq<byte>)
    ensures Matched(data, at, expected) == |expected| <==> Delivers(data, at, expected)
    decreases |expected|
  {
    if expected == [] {
    } else {
      var rest := expected[1..];
      assert expected == [expected[0]] + rest;
      MatchedAll(data, at + 1, rest);
      DeliversAppend(data, at, [expected[0]], rest);
      assert Delivers(data, at, [expected[0]]) <==> data(at + 0) == expected[0];
    }
  }

  // ------------------------------------------------------------------ the two loaders

  lemma ConstantBytes()
    ensures MAGIC_BYTES == Le(HEADER_MAGIC) && TAIL_BYTES == Le(1) + (Le(0) + Le(0))
  {
  }

  /** Byte by byte or word by word, the constant parts of the header pass the same test. */
  lemma HeaderTestsAgree(data: Stream, at: nat)
    ensures HeaderGood(data, at) <==> Matched(data, at, MAGIC_BYTES) == 4 && Matched(data, at + 20, TAIL_BYTES) == 12
  {
    hide Delivers, Le, WordAt, Matched;
    ConstantBytes();
    LeLength(1);
    LeLength(0);
    MatchedAll(data, at, MAGIC_BYTES);
    MatchedAll(data, at + 20, TAIL_BYTES);
    WordBytes(data, at, HEADER_MAGIC);
    WordBytes(data, at + 20, 1);
    WordBytes(data, at + 24, 0);
    WordBytes(data, at + 28, 0);
    DeliversAppend(data, at + 20, Le(1), Le(0) + Le(0));
    DeliversAppend(data, at + 24, Le(0), Le(0));
  }

  lemma LeLength(v: int)
    ensures |Le(v)| == 4
  {
  }

  /** The one disagreement in the order of the checks. */
  predicate OrderMatters(h: Header) {
    (h.load < BASE && h.size == 0) || (h.load >= BASE && h.size > BYTES)
  }

  lemma VerdictsAgree(h: Header)
    ensures CVerdict(h) == AsmVerdict(h) <==> !OrderMatters(h)
    ensures h.load < BASE && h.size == 0 ==> CVerdict(h) == BAD_SIZE && AsmVerdict(h) == BAD_RANGE
    ensures h.load >= BASE && h.size > BYTES ==> CVerdict(h) == BAD_RANGE && AsmVerdict(h) == BAD_SIZE
  {
  }

  lemma LoadStatus(sram: Sram, data: Stream, at: nat, h: Header)
    requires Fits(h)
    ensures LoadImage(sram, data, at, h).status in {OK, BAD_CHECKSUM}
    ensures LoadImage(sram, data, at, h).status == OK <==> PaddedSum(Bytes(data, at, h.size)) == h.checksum
  {
  }

  /** For every memory and every card the C loader and the assembly loader accept the same
      images, and an accepted image leaves the same memory, record and place on the card.
      Where the header is legal but for its fields, they differ only in which status they
      store for the two kinds of header that fail more than one check. */
  lemma LoadersAgree(sram: Sram, data: Stream, at: nat)
    ensures var c, a, h := CBoot(sram, data, at), AsmBoot(sram, data, at), HeaderAt(data, at);
      && (c.status == OK <==> a.status == OK)
      && (c.status == OK ==> c == a)
      && (c.status == OK <==> HeaderGood(data, at) && Fits(h) && PaddedSum(Bytes(data, at + 32, h.size)) == h.checksum)
      && (c.status != a.status <==> HeaderGood(data, at) && OrderMatters(h))
      && (c.status == a.status ==> c.sram == a.sram)
      && (HeaderGood(data, at) ==> c.taken == a.taken)
      && a.taken <= c.taken
      && forall i | 0 <= i < BYTES && !(20 <= i < 24) :: c.sram[i] == a.sram[i]
  {
    hide Matched, HeaderGood, PaddedSum, Bytes, Cleared, LoadImage, ByteOf;
    HeaderTestsAgree(data, at);
    var h := HeaderAt(data, at);
    VerdictsAgree(h);
    if Fits(h) { LoadStatus(Cleared(sram), data, at + 32, h); }
    LoadTaken(sram, data, at);
  }

  lemma LoadTaken(sram: Sram, data: Stream, at: nat)
    ensures var h := HeaderAt(data, at);
      Fits(h) ==> LoadImage(Cleared(sram), data, at + 32, h).taken == at + 32 + h.size
  {
  }

  // ------------------------------------------------------------------ built images

  /** The image the builder writes: 32 header bytes and the payload. */
  function Image(load: word, entry: word, payload: seq<byte>): seq<byte> {
    MAGIC_BYTES + (Le(load) + (Le(|payload|) + (Le(entry)
    + (Le(PaddedSum(payload)) + (Le(1) + (Le(0) + (Le(0) + payload)))))))
  }

  /** The header the builder means. */
  function ImageHeader(load: word, entry: word, payload: seq<byte>): Header
    requires |payload| < W32
  {
    Header(load, |payload|, entry, PaddedSum(payload))
  }

  lemma ImageRead(data: Stream, at: nat, load: word, entry: word, payload: seq<byte>)
    requires |payload| < W32 && Delivers(data, at, Image(load, entry, payload))
    ensures HeaderGood(data, at) && HeaderAt(data, at) == ImageHeader(load, entry, payload)
    ensures Bytes(data, at + 32, |payload|) == payload
  {
    hide Delivers, Le, WordAt, PaddedSum;
    ConstantBytes();
    var sum := PaddedSum(payload);
    LeLength(load);
    LeLength(|payload|);
    LeLength(entry);
    LeLength(sum);
    LeLength(1);
    LeLength(0);
    var r1 := Le(0) + payload;
    var r2 := Le(0) + r1;
    var r3 := Le(1) + r2;
    var r4 := Le(sum) + r3;
    var r5 := Le(entry) + r4;
    var r6 := Le(|payload|) + r5;
    DeliversAppend(data, at, MAGIC_BYTES, Le(load) + r6);
    DeliversAppend(data, at + 4, Le(load), r6);
    DeliversAppend(data, at + 8, Le(|payload|), r5);
    DeliversAppend(data, at + 12, Le(entry), r4);
    DeliversAppend(data, at + 16, Le(sum), r3);
    DeliversAppend(data, at + 20, Le(1), r2);
    DeliversAppend(data, at + 24, Le(0), r1);
    DeliversAppend(data, at + 28, Le(0), payload);
    WordBytes(data, at, HEADER_MAGIC);
    WordBytes(data, at + 4, load);
    WordBytes(data, at + 8, |payload|);
    WordBytes(data, at + 12, entry);
    WordBytes(data, at + 16, sum);
    WordBytes(data, at + 20, 1);
    WordBytes(data, at + 24, 0);
    WordBytes(data, at + 28, 0);
    PayloadBytes(data, at + 32, payload);
  }

  lemma PayloadBytes(data: Stream, at: nat, payload: seq<byte>)
    requires Delivers(data, at, payload)
    ensures Bytes(data, at, |payload|) == payload
  {
  }

  /** Byte i of the boot information block. */
  function InfoByte(h: Header, i: nat): byte
    requires i < 32
  {
    ByteOf(InfoWords(h)[i / 4], i % 4)
  }

  lemma {:induction false} StoredBytes(sram: Sram, ws: seq<word>, n: nat)
    requires n <= |ws| <= 8
    ensures forall i | 0 <= i < BYTES ::
      Stored(sram, ws, n)[i] == if i < 4 * n then ByteOf(ws[i / 4], i % 4) else sram[i]
  {
    hide ByteOf;
    if n == 0 {
    } else {
      StoredBytes(sram, ws, n - 1);
    }
  }

  /** What memory holds after a good image has been loaded. */
  function LoadedByte(sram: Sram, h: Header, payload: seq<byte>, i: nat): byte
    requires i < BYTES
  {
    if i < 32 then InfoByte(h, i)
    else if h.load - BASE <= i < h.load - BASE + |payload| then payload[i - (h.load - BASE)]
    else sram[i]
  }

  /** Copying the payload over the cleared memory and storing the block gives these bytes. */
  lemma LoadedBytes(sram: Sram, data: Stream, at: nat, h: Header, payload: seq<byte>)
    requires Fits(h) && h.size == |payload| && forall i | 0 <= i < |payload| :: payload[i] == data(at + i)
    ensures var r := WithInfo(Copied(Cleared(sram), h.load - BASE, data, at, h.size), h);
      forall i | 0 <= i < BYTES :: r[i] == LoadedByte(sram, h, payload, i)
  {
    hide Stored, ByteOf, PaddedSum;
    StoredBytes(sram, ZEROS, 8);
    StoredBytes(Copied(Cleared(sram), h.load - BASE, data, at, h.size), InfoWords(h), 8);
  }

  /** What the C loader accepts, and what it then leaves behind. */
  lemma AcceptedIs(sram: Sram, data: Stream, at: nat)
    ensures var h, o := HeaderAt(data, at), CBoot(sram, data, at);
      && (o.status == OK <==> HeaderGood(data, at) && Fits(h) && PaddedSum(Bytes(data, at + 32, h.size)) == h.checksum)
      && (o.status == OK ==>
            && o.header == h && o.taken == at + 32 + h.size
            && o.sram == WithInfo(Copied(Cleared(sram), h.load - BASE, data, at + 32, h.size), h))
  {
    hide HeaderAt, HeaderGood, PaddedSum, Bytes, Copied, Cleared, WithInfo, WithStatus;
  }

  /** Round trip: an image built for these addresses is accepted exactly when they are legal,
      and then memory holds the information block, the payload outside it, and otherwise what
      it held before. */
  lemma ImageLoads(sram: Sram, data: Stream, at: nat, load: word, entry: word, payload: seq<byte>)
    requires |payload| < W32 && Delivers(data, at, Image(load, entry, payload))
    ensures var h, o := ImageHeader(load, entry, payload), CBoot(sram, data, at);
      && (o.status == OK <==> Fits(h))
      && (Fits(h) ==> o == AsmBoot(sram, data, at) && o.header == h && o.taken == at + |Image(load, entry, payload)|)
      && (Fits(h) ==> forall i | 0 <= i < BYTES :: o.sram[i] == LoadedByte(sram, h, payload, i))
  {
    hide Delivers, AsmBoot, CBoot, PaddedSum, HeaderGood, HeaderAt, Bytes, Image, Copied, Cleared, WithInfo, LoadedByte;
    var h := ImageHeader(load, entry, payload);
    ImageRead(data, at, load, entry, payload);
    ImageLength(load, entry, payload);
    LoadersAgree(sram, data, at);
    AcceptedIs(sram, data, at);
    if Fits(h) {
      forall i | 0 <= i < |payload| ensures payload[i] == data(at + 32 + i) {
        BytesAt(data, at + 32, |payload|, i);
      }
      LoadedBytes(sram, data, at + 32, h, payload);
    }
  }

  lemma ImageLength(load: word, entry: word, payload: seq<byte>)
    ensures |Image(load, entry, payload)| == 32 + |payload|
  {
  }

  /** The payload in memory is the payload built exactly when its part under the information
      block, if any, happens to equal the block; loading behind the block suffices. */
  lemma PayloadIntact(sram: Sram, data: Stream, at: nat, load: word, entry: word, payload: seq<byte>)
    requires |payload| < W32 && Delivers(data, at, Image(load, entry, payload))
    requires Fits(ImageHeader(load, entry, payload))
    ensures var h, o, off := ImageHeader(load, entry, payload), CBoot(sram, data, at), load - BASE;
      && (o.sram[off..off + |payload|] == payload <==>
            forall i | 0 <= i < |payload| && off + i < 32 :: payload[i] == InfoByte(h, off + i))
      && (off >= 32 ==> o.sram[off..off + |payload|] == payload)
  {
    hide Delivers, CBoot, AsmBoot, PaddedSum, Image, InfoByte;
    ImageLoads(sram, data, at, load, entry, payload);
    var h, o, off: nat := ImageHeader(load, entry, payload), CBoot(sram, data, at), load - BASE;
    SliceIs(o.sram, off, payload);
    forall i | 0 <= i < |payload|
      ensures o.sram[off + i] == if off + i < 32 then InfoByte(h, off + i) else payload[i]
    {
      assert 0 <= off + i < BYTES;
    }
  }

  lemma SliceIs(sram: Sram, off: nat, payload: seq<byte>)
    requires off + |payload| <= BYTES
    ensures sram[off..off + |payload|] == payload <==> forall i | 0 <= i < |payload| :: sram[off + i] == payload[i]
  {
    var slice := sram[off..off + |payload|];
    assert forall i | 0 <= i < |payload| :: slice[i] == sram[off + i];
  }

  // ------------------------------------------------------------------ the monitor

  /** The header the information block records. */
  function Recorded(s: Mon): Header {
    Header(InfoWord(s.sram, 1), InfoWord(s.sram, 2), InfoWord(s.sram, 3), InfoWord(s.sram, 4))
  }

  function ImageIn(s: Mon): seq<byte>
    requires Fits(Recorded(s))
  {
    s.sram[Recorded(s).load - BASE..Recorded(s).load - BASE + Recorded(s).size]
  }

  /** While an image is loaded its record stands, and unless it lies under the record, the
      image still has its checksum. */
  ghost predicate Intact(s: Mon) {
    s.loaded ==>
      && InfoWord(s.sram, 0) == INFO_MAGIC && InfoWord(s.sram, 5) == OK
      && Fits(Recorded(s)) && s.entry == Recorded(s).entry
      && (Recorded(s).load >= BASE + 0x20 ==> PaddedSum(ImageIn(s)) == Recorded(s).checksum)
  }

  lemma IntactInBounds(s: Mon)
    requires Intact(s)
    ensures InBounds(s)
  {
  }

  lemma StoredWords(sram: Sram, ws: seq<word>)
    requires |ws| == 8
    ensures forall k | 0 <= k < 8 :: InfoWord(Stored(sram, ws, 8), k) == ws[k]
  {
    hide Stored;
    StoredBytes(sram, ws, 8);
    forall k | 0 <= k < 8 ensures InfoWord(Stored(sram, ws, 8), k) == ws[k] {
      WordFromBytes(Stored(sram, ws, 8), ws, k);
    }
  }

  lemma WordFromBytes(sram: Sram, ws: seq<word>, k: nat)
    requires k < |ws| == 8 && forall i | 0 <= i < 32 :: sram[i] == ByteOf(ws[i / 4], i % 4)
    ensures InfoWord(sram, k) == ws[k]
  {
    hide ByteOf, WordOf;
    DivModUnique(4 * k, 4, k, 0);
    DivModUnique(4 * k + 1, 4, k, 1);
    DivModUnique(4 * k + 2, 4, k, 2);
    DivModUnique(4 * k + 3, 4, k, 3);
    SplitWord(ws[k]);
  }

  /** A boot attempt establishes the invariant, whatever the card delivers. */
  lemma BootIntact(s: Mon, data: Stream)
    ensures Intact(Booted(s, data))
  {
    hide CBoot, HeaderAt, HeaderGood, PaddedSum, Bytes, Copied, Cleared, WithInfo, Recorded, InfoWord;
    var h, at, t := HeaderAt(data, s.taken), s.taken + 32, Booted(s, data);
    AcceptedIs(s.sram, data, s.taken);
    if t.loaded {
      LoadedRecord(Copied(Cleared(s.sram), h.load - BASE, data, at, h.size), h, t);
      var payload := Bytes(data, at, h.size);
      forall i | 0 <= i < |payload| ensures payload[i] == data(at + i) {
        BytesAt(data, at, h.size, i);
      }
      LoadedBytes(s.sram, data, at, h, payload);
      if h.load >= BASE + 0x20 {
        BytesEqual(data, at, t.sram[h.load - BASE..h.load - BASE + h.size]);
      }
    }
  }

  lemma BytesEqual(data: Stream, at: nat, bytes: seq<byte>)
    requires forall i | 0 <= i < |bytes| :: bytes[i] == data(at + i)
    ensures Bytes(data, at, |bytes|) == bytes
  {
  }

  /** The image bytes a record describes, except those under the record itself. */
  ghost predicate SameImage(h: Header, a: Sram, b: Sram) {
    forall i | h.load - BASE <= i < h.load - BASE + h.size && 32 <= i < BYTES :: a[i] == b[i]
  }

  /** Memory changed only where neither the record's first six words nor the image is. */
  ghost predicate Spared(s: Mon, t: Mon) {
    && t.loaded == s.loaded && t.entry == s.entry
    && (forall i | 0 <= i < 24 :: t.sram[i] == s.sram[i])
    && (s.loaded ==> SameImage(Recorded(s), s.sram, t.sram))
  }

  lemma SparedIntact(s: Mon, t: Mon)
    requires Intact(s) && Spared(s, t)
    ensures Intact(t) && Recorded(t) == Recorded(s)
    ensures s.loaded && Recorded(s).load >= BASE + 0x20 ==> ImageIn(t) == ImageIn(s)
  {
    hide PaddedSum, Recorded;
    RecordKept(s, t);
    if s.loaded && Recorded(s).load >= BASE + 0x20 {
      var lo, hi := Recorded(s).load - BASE, Recorded(s).load - BASE + Recorded(s).size;
      assert t.sram[lo..hi] == s.sram[lo..hi];
    }
  }

  lemma RecordKept(s: Mon, t: Mon)
    requires forall i | 0 <= i < 24 :: t.sram[i] == s.sram[i]
    ensures Recorded(t) == Recorded(s)
    ensures InfoWord(t.sram, 0) == InfoWord(s.sram, 0) && InfoWord(t.sram, 5) == InfoWord(s.sram, 5)
  {
  }

  /** The memory test runs behind the image, and never over the record. */
  lemma TestSpares(s: Mon)
    requires Intact(s)
    ensures Spared(s, RamTested(s))
  {
    hide InfoWord, AlignUp, Write32, PaddedSum;
    IntactInBounds(s);
    TestBaseInRange(s);
    if (TestBase(s) + 16) % W32 <= RAMTEST_LIMIT {
      PatternsRead(s.sram, TestBase(s) - BASE, 4);
    }
  }

  lemma RememberSpares(s: Mon, code: byte, ascii: byte)
    requires Intact(s)
    ensures Spared(s, s.(sram := Remembered(s.sram, code, ascii)))
  {
    hide Remembered, InfoWord;
    RememberKeeps(s.sram, code, ascii);
  }

  /** What arrives at the monitor: a serial character or a scan code. */
  datatype Event = Key(ch: char) | Code(code: byte)

  function Handled(s: Mon, ev: Event, data: Stream): Mon {
    if ev.Key? then Commanded(s, ev.ch, data) else Scanned(s, ev.code, data)
  }

  lemma CommandIntact(s: Mon, ch: char, data: Stream)
    requires Intact(s)
    ensures Intact(Commanded(s, ch, data))
    ensures ch != 'b' ==> Spared(s, Commanded(s, ch, data))
  {
    hide Booted, RamTested, Intact;
    TestSpares(s);
    BootIntact(s, data);
    if ch == 'r' { SparedIntact(s, RamTested(s)); }
    if ch == 'l' { SparedIntact(s, s.(led := !s.led)); }
  }

  lemma SparedThen(s: Mon, t: Mon, u: Mon)
    requires Intact(s) && Spared(s, t) && Spared(t, u) && Recorded(t) == Recorded(s)
    ensures Spared(s, u)
  {
    hide InfoWord, PaddedSum;
  }

  /** Whether an event starts a new boot attempt. */
  predicate Reboots(s: Mon, ev: Event) {
    if ev.Key? then ev.ch == 'b'
    else ev.code != 0xF0 && ev.code != 0xE0 && !s.breakPrefix && !s.extended && DecodePs2(ev.code) == 'b'
  }

  /** One event: the invariant stands, and short of a new boot attempt the record and the
      image are what they were. */
  lemma EventIntact(s: Mon, ev: Event, data: Stream)
    requires Intact(s)
    ensures Intact(Handled(s, ev, data))
    ensures !Reboots(s, ev) ==> Spared(s, Handled(s, ev, data)) && Recorded(Handled(s, ev, data)) == Recorded(s)
  {
    hide Commanded, Intact, Spared, Remembered, DecodePs2, Recorded;
    if ev.Key? {
      CommandIntact(s, ev.ch, data);
      if ev.ch != 'b' { SparedIntact(s, Commanded(s, ev.ch, data)); }
    } else {
      PrefixSpares(s);
      if !(ev.code == 0xF0 || ev.code == 0xE0 || s.breakPrefix || s.extended || DecodePs2(ev.code) == '\0') {
        var ascii := DecodePs2(ev.code);
        var t := s.(sram := Remembered(s.sram, ev.code, ascii as int));
        RememberSpares(s, ev.code, ascii as int);
        SparedIntact(s, t);
        CommandIntact(t, ascii, data);
        if ascii != 'b' {
          SparedThen(s, t, Commanded(t, ascii, data));
          SparedIntact(s, Commanded(t, ascii, data));
        }
      }
    }
  }

  lemma PrefixSpares(s: Mon)
    requires Intact(s)
    ensures forall b: bool, x: bool :: var t := s.(breakPrefix := b, extended := x);
      Intact(t) && Spared(s, t) && Recorded(t) == Recorded(s)
  {
    hide PaddedSum, InfoWord;
  }

  /** `g` leaves the monitor when an image is loaded; what the image then does is not modelled. */
  predicate Leaves(s: Mon, ev: Event) {
    s.loaded && if ev.Key? then ev.ch == 'g' else DecodePs2(ev.code) == 'g' && !s.breakPrefix && !s.extended
  }

  /** The monitor's run up to the first jump into a loaded image. */
  ghost function MonitorRun(s: Mon, events: seq<Event>, data: Stream): (t: Mon)
    requires Intact(s)
    ensures Intact(t)
    decreases |events|
  {
    if events == [] || Leaves(s, events[0]) then s
    else
      EventIntact(s, events[0], data);
      MonitorRun(Handled(s, events[0], data), events[1..], data)
  }

  /** From power-on: for every card, every initial memory and every sequence of serial and
      keyboard events, whenever an image is loaded its record is whole, and an image behind
      the record still sums to the recorded checksum. */
  lemma MonitorSafe(sram: Sram, entry: word, led: bool, divider: half, data: Stream, events: seq<Event>)
    ensures var start := Booted(Mon(sram, 0, false, entry, false, false, led, divider), data);
      Intact(start) && Intact(MonitorRun(start, events, data))
  {
    hide MonitorRun, Booted, Intact;
    BootIntact(Mon(sram, 0, false, entry, false, false, led, divider), data);
  }

  /** No event of the run starts a boot attempt.  The scan code of `b` does not when it is
      swallowed, as the one of a key release is. */
  ghost predicate NoReboot(s: Mon, events: seq<Event>, data: Stream)
    decreases |events|
  {
    || events == [] || Leaves(s, events[0])
    || (!Reboots(s, events[0]) && NoReboot(Handled(s, events[0], data), events[1..], data))
  }

  /** Without a new boot attempt, a whole run leaves the record and every image byte not under
      it as they were. */
  lemma {:induction false} ImageSurvives(s: Mon, events: seq<Event>, data: Stream)
    requires Intact(s) && NoReboot(s, events, data)
    ensures var t := MonitorRun(s, events, data);
      && t.loaded == s.loaded && Recorded(t) == Recorded(s)
      && (s.loaded ==> SameImage(Recorded(s), s.sram, t.sram))
      && (s.loaded && Recorded(s).load >= BASE + 0x20 ==> ImageIn(t) == ImageIn(s))
    decreases |events|
  {
    hide Handled, Intact, Recorded, ImageIn, Reboots;
    if events == [] || Leaves(s, events[0]) {
    } else {
      EventIntact(s, events[0], data);
      var t := Handled(s, events[0], data);
      SparedIntact(s, t);
      ImageSurvives(t, events[1..], data);
    }
  }

  // ------------------------------------------------------------------ which image it is

  /** A boot attempt: the header it read, and where on the card its image begins. */
  datatype Attempt = Attempt(h: Header, at: nat)

  function AttemptAt(s: Mon, data: Stream): Attempt { Attempt(HeaderAt(data, s.taken), s.taken + 32) }

  /** The last boot attempt of a run, `a` being the one before it. */
  ghost function LastAttempt(s: Mon, a: Attempt, events: seq<Event>, data: Stream): Attempt
    decreases |events|
  {
    if events == [] || Leaves(s, events[0]) then a
    else
      LastAttempt(Handled(s, events[0], data), if Reboots(s, events[0]) then AttemptAt(s, data) else a,
                  events[1..], data)
  }

  /** The record is the header of attempt `a`, and every image byte not under the record is
      the one the card delivered in that attempt. */
  ghost predicate HoldsImageOf(s: Mon, a: Attempt, data: Stream) {
    s.loaded ==>
      && Fits(a.h) && Recorded(s) == a.h && PaddedSum(Bytes(data, a.at, a.h.size)) == a.h.checksum
      && forall i | a.h.load - BASE <= i < a.h.load - BASE + a.h.size && 32 <= i ::
           s.sram[i] == data(a.at + (i - (a.h.load - BASE)))
  }

  lemma LoadedRecord(copied: Sram, h: Header, s: Mon)
    requires s.sram == WithInfo(copied, h)
    ensures Recorded(s) == h && InfoWord(s.sram, 0) == INFO_MAGIC && InfoWord(s.sram, 5) == OK
  {
    hide InfoWord, Stored;
    StoredWords(copied, InfoWords(h));
  }

  lemma BootHolds(s: Mon, data: Stream)
    ensures HoldsImageOf(Booted(s, data), AttemptAt(s, data), data)
  {
    hide CBoot, HeaderAt, HeaderGood, PaddedSum, Bytes, Copied, Cleared, WithInfo, Recorded;
    var h, at := HeaderAt(data, s.taken), s.taken + 32;
    AcceptedIs(s.sram, data, s.taken);
    if Booted(s, data).loaded {
      LoadedRecord(Copied(Cleared(s.sram), h.load - BASE, data, at, h.size), h, Booted(s, data));
      var payload := Bytes(data, at, h.size);
      forall i | 0 <= i < |payload| ensures payload[i] == data(at + i) {
        BytesAt(data, at, h.size, i);
      }
      LoadedBytes(s.sram, data, at, h, payload);
    }
  }

  lemma SparedHolds(s: Mon, t: Mon, a: Attempt, data: Stream)
    requires Intact(s) && Spared(s, t) && HoldsImageOf(s, a, data)
    ensures HoldsImageOf(t, a, data)
  {
    hide PaddedSum, Bytes, Recorded, Intact;
    SparedIntact(s, t);
  }

  /** An event that starts a boot attempt does nothing after it. */
  lemma RebootIs(s: Mon, ev: Event, data: Stream) returns (m: Sram)
    requires Reboots(s, ev)
    ensures Handled(s, ev, data) == Booted(s.(sram := m), data)
  {
    hide Booted, Remembered;
    m := if ev.Key? then s.sram else Remembered(s.sram, ev.code, DecodePs2(ev.code) as int);
  }

  lemma EventHolds(s: Mon, ev: Event, a: Attempt, data: Stream)
    requires Intact(s) && HoldsImageOf(s, a, data)
    ensures HoldsImageOf(Handled(s, ev, data), if Reboots(s, ev) then AttemptAt(s, data) else a, data)
  {
    hide Intact, HoldsImageOf, Handled, Reboots, Spared, Booted, HeaderAt;
    if Reboots(s, ev) {
      var m := RebootIs(s, ev, data);
      BootHolds(s.(sram := m), data);
    } else {
      EventIntact(s, ev, data);
      SparedHolds(s, Handled(s, ev, data), a, data);
    }
  }

  lemma {:induction false} RunHolds(s: Mon, a: Attempt, events: seq<Event>, data: Stream)
    requires Intact(s) && HoldsImageOf(s, a, data)
    ensures HoldsImageOf(MonitorRun(s, events, data), LastAttempt(s, a, events, data), data)
    decreases |events|
  {
    hide Intact, HoldsImageOf, Handled, Reboots, AttemptAt;
    if events == [] || Leaves(s, events[0]) {
    } else {
      EventHolds(s, events[0], a, data);
      EventIntact(s, events[0], data);
      RunHolds(Handled(s, events[0], data), if Reboots(s, events[0]) then AttemptAt(s, data) else a,
               events[1..], data);
    }
  }

  /** From power-on, over every card, memory and event sequence with any number of boot
      attempts: a loaded image is the one of the last attempt, record and bytes. */
  lemma LoadedIsLastBooted(sram: Sram, entry: word, led: bool, divider: half, data: Stream, events: seq<Event>)
    ensures var on := Mon(sram, 0, false, entry, false, false, led, divider);
      var start := Booted(on, data);
      Intact(start)
      && HoldsImageOf(MonitorRun(start, events, data), LastAttempt(start, AttemptAt(on, data), events, data), data)
  {
    hide MonitorRun, Booted, Intact, HoldsImageOf, LastAttempt;
    var on := Mon(sram, 0, false, entry, false, false, led, divider);
    BootIntact(on, data);
    BootHolds(on, data);
    RunHolds(Booted(on, data), AttemptAt(on, data), events, data);
  }
}
