/** What the two boot loaders are to do: the header, the legal images, the checksum and
    the boot information block. */
module BootSpec {
  import opened Bits
  import opened UnifiedMem
  import Rv32

  const BASE: word := Rv32.SRAM_BASE
  const BYTES: nat := Rv32.SRAM_BYTES

  const INFO_MAGIC: word := 0x4942_5652
  const HEADER_MAGIC: word := 0x4350_5652
  const OK: word := 1
  const BAD_MAGIC: word := 0xE1
  const BAD_RANGE: word := 0xE2
  const BAD_SIZE: word := 0xE3
  const BAD_ENTRY: word := 0xE4
  const BAD_CHECKSUM: word := 0xE5

  /** The bytes a card delivers, in order. */
  type Stream = nat -> byte

  function WordAt(data: Stream, at: nat): word {
    WordOf(data(at), data(at + 1), data(at + 2), data(at + 3))
  }

  function Bytes(data: Stream, at: nat, n: nat): (s: seq<byte>)
    ensures |s| == n && forall i | 0 <= i < n :: s[i] == data(at + i)
  {
    seq(n, i requires 0 <= i => data(at + i))
  }

  lemma BytesAt(data: Stream, at: nat, n: nat, i: nat)
    requires i < n
    ensures Bytes(data, at, n)[i] == data(at + i)
  {
  }

  datatype Header = Header(load: word, size: word, entry: word, checksum: word)

  /** The four fields after the magic word. */
  function HeaderAt(data: Stream, at: nat): Header {
    Header(WordAt(data, at + 4), WordAt(data, at + 8), WordAt(data, at + 12), WordAt(data, at + 16))
  }

  /** A legal image: inside SRAM, not empty, and entered inside itself. */
  predicate Fits(h: Header) {
    && BASE <= h.load && 0 < h.size && h.load + h.size <= BASE + BYTES
    && h.load <= h.entry < h.load + h.size
  }

  // ------------------------------------------------------------------ checksum

  /** Bytes past the end read as zero: the padding of the last word. */
  function PaddedByte(payload: seq<byte>, i: nat): byte {
    if i < |payload| then payload[i] else 0
  }

  function PaddedWord(payload: seq<byte>, w: nat): word {
    WordOf(PaddedByte(payload, 4 * w), PaddedByte(payload, 4 * w + 1),
           PaddedByte(payload, 4 * w + 2), PaddedByte(payload, 4 * w + 3))
  }

  /** The sum of the first n padded little-endian words, modulo 2^32. */
  function SumWords(payload: seq<byte>, n: nat): word {
    if n == 0 then 0 else (SumWords(payload, n - 1) + PaddedWord(payload, n - 1)) % W32
  }

  function PaddedSum(payload: seq<byte>): word { SumWords(payload, (|payload| + 3) / 4) }

  /** sum32_le_words of the image builder: pad to a whole number of words, then add them up. */
  method Sum32LeWords(payload: seq<byte>) returns (checksum: word)
    ensures checksum == PaddedSum(payload)
  {
    hide PaddedWord, Read32;
    var padding: nat := (-|payload|) % 4;
    var padded := payload + seq(padding, _ => 0);
    checksum := 0;
    var offset := 0;
    ghost var n: nat := 0;
    PaddedLength(|payload|);
    assert |padded| == 4 * ((|payload| + 3) / 4);
    while offset < |padded|
      invariant offset == 4 * n && n <= (|payload| + 3) / 4
      invariant checksum == SumWords(payload, n)
    {
      PaddedRead(payload, padding, n);
      checksum := (checksum + Read32(padded, offset)) % W32;
      offset, n := offset + 4, n + 1;
    }
  }

  lemma PaddedRead(payload: seq<byte>, padding: nat, n: nat)
    requires 4 * n + 4 <= |payload| + padding
    ensures Read32(payload + seq(padding, _ => 0), 4 * n) == PaddedWord(payload, n)
  {
    var padded := payload + seq(padding, _ => 0);
    assert forall i | 0 <= i < |padded| :: padded[i] == PaddedByte(payload, i);
  }

  lemma PaddedLength(n: int)
    ensures n + (-n) % 4 == 4 * ((n + 3) / 4)
  {
    var q, r := (n + 3) / 4, (n + 3) % 4;
    DivModUnique(-n, 4, -q, 3 - r);
  }

  /** What the byte-at-a-time loops hold after i bytes besides the sum: the word begun. */
  function Partial(payload: seq<byte>, i: nat): word
    requires i <= |payload|
  {
    PaddedWord(payload[..i], i / 4)
  }

  /** What bounds the bytes below lane k. */
  function Lane(k: nat): nat
    requires k < 4
  {
    match k case 0 => 1 case 1 => 0x100 case 2 => 0x1_0000 case _ => 0x100_0000
  }

  /** A byte shifted into lane k. */
  function InLane(b: nat, k: nat): nat
    requires k < 4
  {
    match k case 0 => b case 1 => b * 0x100 case 2 => b * 0x1_0000 case _ => b * 0x100_0000
  }

  /** ORing a byte into the empty lane above the bytes already there. */
  lemma OrLane(low: nat, b: byte, k: nat)
    requires k < 4 && low < Lane(k)
    ensures Or(low, InLane(b, k)) == low + InLane(b, k)
    ensures Or(InLane(b, k), low) == low + InLane(b, k)
  {
    hide Or, Pow2;
    OrCommutes(low, InLane(b, k));
    LanePowers();
    match k {
      case 0 => OrDisjoint(b, low, 0);
      case 1 => OrDisjoint(b, low, 8);
      case 2 => OrDisjoint(b, low, 16);
      case _ => OrDisjoint(b, low, 24);
    }
  }

  lemma LanePowers()
    ensures Pow2(0) == 1 && Pow2(8) == 0x100 && Pow2(16) == 0x1_0000 && Pow2(24) == 0x100_0000
  {
    Pow2Values();
  }

  /** Byte j if it is among the first i, otherwise 0. */
  function Seen(payload: seq<byte>, i: nat, j: nat): byte
    requires i <= |payload|
  {
    if j < i then payload[j] else 0
  }

  lemma SeenIs(payload: seq<byte>, i: nat, j: nat)
    requires i <= |payload|
    ensures PaddedByte(payload[..i], j) == Seen(payload, i, j)
  {
  }

  /** The bytes of the word begun, lane by lane; those not taken yet are 0. */
  lemma PartialIs(payload: seq<byte>, q: nat, i: nat)
    requires 4 * q <= i <= |payload| && i < 4 * q + 4
    ensures Partial(payload, i) ==
      WordOf(Seen(payload, i, 4 * q), Seen(payload, i, 4 * q + 1),
             Seen(payload, i, 4 * q + 2), Seen(payload, i, 4 * q + 3))
  {
    hide PaddedByte, Seen, WordOf;
    DivModUnique(i, 4, q, i - 4 * q);
    SeenIs(payload, i, 4 * q);
    SeenIs(payload, i, 4 * q + 1);
    SeenIs(payload, i, 4 * q + 2);
    SeenIs(payload, i, 4 * q + 3);
  }

  lemma PartialShape(payload: seq<byte>, q: nat)
    ensures 4 * q <= |payload| ==> Partial(payload, 4 * q) == 0
    ensures 4 * q + 1 <= |payload| ==> Partial(payload, 4 * q + 1) == payload[4 * q]
    ensures 4 * q + 2 <= |payload| ==> Partial(payload, 4 * q + 2) == WordOf(payload[4 * q], payload[4 * q + 1], 0, 0)
    ensures 4 * q + 3 <= |payload| ==>
      Partial(payload, 4 * q + 3) == WordOf(payload[4 * q], payload[4 * q + 1], payload[4 * q + 2], 0)
  {
    hide Partial;
    if 4 * q <= |payload| { PartialIs(payload, q, 4 * q); }
    if 4 * q + 1 <= |payload| { PartialIs(payload, q, 4 * q + 1); }
    if 4 * q + 2 <= |payload| { PartialIs(payload, q, 4 * q + 2); }
    if 4 * q + 3 <= |payload| { PartialIs(payload, q, 4 * q + 3); }
  }

  /** ORing the next byte into its lane keeps the word begun; the fourth byte completes it. */
  lemma PartialStep(payload: seq<byte>, q: nat, k: nat)
    requires k < 4 && 4 * q + k < |payload|
    ensures var b, low := payload[4 * q + k], Partial(payload, 4 * q + k);
      && low < Lane(k)
      && Or(low, InLane(b, k)) == low + InLane(b, k) < W32
      && if k < 3 then Partial(payload, 4 * q + k + 1) == low + InLane(b, k)
         else PaddedWord(payload, q) == low + InLane(b, k) && Partial(payload, 4 * q + 4) == 0
  {
    hide Or, Partial, PaddedWord;
    var b, low := payload[4 * q + k], Partial(payload, 4 * q + k);
    PartialShape(payload, q);
    if k == 0 {
      OrLane(low, b, 0);
    } else if k == 1 {
      OrLane(low, b, 1);
    } else if k == 2 {
      OrLane(low, b, 2);
    } else {
      OrLane(low, b, 3);
      PartialShape(payload, q + 1);
      assert 4 * (q + 1) == 4 * q + 4;
      WholeWord(payload, q);
    }
  }

  lemma WholeWord(payload: seq<byte>, q: nat)
    requires 4 * q + 4 <= |payload|
    ensures PaddedWord(payload, q) == WordOf(payload[4 * q], payload[4 * q + 1], payload[4 * q + 2], payload[4 * q + 3])
  {
  }

  /** After the last byte, adding the word begun, if there is one, gives the padded sum. */
  lemma PartialLast(payload: seq<byte>)
    ensures var n, sum := |payload|, SumWords(payload, |payload| / 4);
      PaddedSum(payload) == if n % 4 == 0 then sum else (sum + Partial(payload, n)) % W32
  {
    var n := |payload|;
    assert payload[..n] == payload;
    assert (n + 3) / 4 == if n % 4 == 0 then n / 4 else n / 4 + 1;
  }

  lemma PartialNone(payload: seq<byte>)
    ensures Partial(payload, 0) == 0 && SumWords(payload, 0) == 0
  {
    assert payload[..0] == [];
  }

  lemma NextLane(q: nat, k: nat)
    requires k < 4
    ensures (4 * q + k + 1) / 4 == if k < 3 then q else q + 1
    ensures (4 * q + k + 1) % 4 == if k < 3 then k + 1 else 0
  {
  }

  lemma SumNext(payload: seq<byte>, q: nat)
    ensures SumWords(payload, q + 1) == (SumWords(payload, q) + PaddedWord(payload, q)) % W32
  {
  }

  // ------------------------------------------------------------------ memory

  type Sram = s: seq<byte> | |s| == 0x1_0000 witness seq(0x1_0000, _ => 0)

  /** The first n of these words stored at the start of SRAM, one after another. */
  function Stored(sram: Sram, ws: seq<word>, n: nat): Sram
    requires n <= |ws| <= 8
  {
    if n == 0 then sram else Write32(Stored(sram, ws, n - 1), 4 * (n - 1), ws[n - 1])
  }

  lemma StoredNone(sram: Sram, ws: seq<word>)
    requires |ws| <= 8
    ensures Stored(sram, ws, 0) == sram
  {
  }

  lemma StoredStep(sram: Sram, ws: seq<word>, n: nat)
    requires n < |ws| <= 8
    ensures Stored(sram, ws, n + 1) == Write32(Stored(sram, ws, n), 4 * n, ws[n])
  {
  }

  const ZEROS: seq<word> := [0, 0, 0, 0, 0, 0, 0, 0]

  function InfoWords(h: Header): seq<word> {
    [INFO_MAGIC, h.load, h.size, h.entry, h.checksum, OK, 0, 0]
  }

  function Cleared(sram: Sram): Sram { Stored(sram, ZEROS, 8) }

  function WithInfo(sram: Sram, h: Header): Sram { Stored(sram, InfoWords(h), 8) }

  function WithStatus(sram: Sram, status: word): Sram { Write32(sram, 20, status) }

  /** The next n bytes of the stream copied to an offset. */
  function Copied(sram: Sram, off: nat, data: Stream, at: nat, n: nat): (r: Sram)
    requires off + n <= BYTES
    ensures forall i | 0 <= i < BYTES :: r[i] == if off <= i < off + n then data(at + (i - off)) else sram[i]
  {
    if n == 0 then sram else Copied(sram, off, data, at, n - 1)[off + n - 1 := data(at + (n - 1))]
  }

  // ------------------------------------------------------------------ outcomes

  /** What a boot attempt leaves: memory, how far the card was read, and the image if one
      was accepted. */
  datatype Outcome = Outcome(sram: Sram, taken: nat, status: word, header: Header)

  const NO_IMAGE := Header(0, 0, 0, 0)

  function Rejected(sram: Sram, taken: nat, status: word): Outcome {
    Outcome(WithStatus(sram, status), taken, status, NO_IMAGE)
  }

  /** From a header that passed the checks on: copy, compare checksums, publish. */
  function LoadImage(sram: Sram, data: Stream, at: nat, h: Header): Outcome
    requires Fits(h)
  {
    var copied := Copied(sram, h.load - BASE, data, at, h.size);
    if PaddedSum(Bytes(data, at, h.size)) != h.checksum then Rejected(copied, at + h.size, BAD_CHECKSUM)
    else Outcome(WithInfo(copied, h), at + h.size, OK, h)
  }

  // ------------------------------------------------------------------ the assembly loader

  const MAGIC_BYTES: seq<byte> := [0x52, 0x56, 0x50, 0x43]

  /** Version 1 and two reserved zero words. */
  const TAIL_BYTES: seq<byte> := [1, 0, 0, 0, 0, 0, 0, 0, 0, 0, 0, 0]

  /** How many of the expected bytes the stream delivers before the first that differs. */
  function Matched(data: Stream, at: nat, expected: seq<byte>): (n: nat)
    ensures n <= |expected|
    decreases |expected|
  {
    if expected == [] || data(at) != expected[0] then 0 else 1 + Matched(data, at + 1, expected[1..])
  }

  /** The order and the overflow test of the assembly loader. */
  function AsmVerdict(h: Header): (status: word)
    ensures status == OK <==> Fits(h)
  {
    if h.load < BASE then BAD_RANGE
    else if h.size == 0 then BAD_SIZE
    else if BYTES < h.size then BAD_SIZE
    else
      var end := (h.load + h.size) % W32;
      if end < h.load then BAD_RANGE
      else if BASE + BYTES < end then BAD_RANGE
      else if h.entry < h.load then BAD_ENTRY
      else if !(h.entry < end) then BAD_ENTRY
      else OK
  }

  /** It stops reading the card at the first header byte that is wrong. */
  function AsmBoot(sram: Sram, data: Stream, at: nat): Outcome {
    var cleared, k := Cleared(sram), Matched(data, at, MAGIC_BYTES);
    if k < 4 then Rejected(cleared, at + k + 1, BAD_MAGIC)
    else
      var t, h := Matched(data, at + 20, TAIL_BYTES), HeaderAt(data, at);
      if t < 12 then Rejected(cleared, at + 20 + t + 1, BAD_MAGIC)
      else if AsmVerdict(h) != OK then Rejected(cleared, at + 32, AsmVerdict(h))
      else LoadImage(cleared, data, at + 32, h)
  }

  // ------------------------------------------------------------------ the C loader

  const C_OK_TEXT: string := "BOOT=OK\n> "
  const C_ERROR_TEXT: string := "BOOT=ER\n> "

  /** uart_puts sends a carriage return before each newline. */
  function Crlf(text: string): string
    decreases |text|
  {
    if text == [] then [] else (if text[0] == '\n' then "\r\n" else [text[0]]) + Crlf(text[1..])
  }

  lemma {:induction false} CrlfAppend(a: string, b: string)
    ensures Crlf(a + b) == Crlf(a) + Crlf(b)
    decreases |a|
  {
    if a == [] {
      assert a + b == b;
    } else {
      assert (a + b)[1..] == a[1..] + b;
      CrlfAppend(a[1..], b);
    }
  }

  lemma {:induction false} CrlfPlain(a: string)
    requires forall i | 0 <= i < |a| :: a[i] != '\n'
    ensures Crlf(a) == a
    decreases |a|
  {
    if a == [] {
    } else {
      CrlfPlain(a[1..]);
    }
  }

  lemma OkTexts()
    ensures Crlf(C_OK_TEXT) == "BOOT=OK\r\n> "
  {
    hide Crlf;
    CrlfLine("BOOT=OK");
    assert C_OK_TEXT == "BOOT=OK" + ("\n" + "> ");
  }

  lemma ErrorTexts()
    ensures Crlf(C_ERROR_TEXT) == "BOOT=ER\r\n> "
  {
    hide Crlf;
    CrlfLine("BOOT=ER");
    assert C_ERROR_TEXT == "BOOT=ER" + ("\n" + "> ");
  }

  lemma CrlfLine(line: string)
    requires forall i | 0 <= i < |line| :: line[i] != '\n'
    ensures Crlf(line + ("\n" + "> ")) == line + ("\r\n" + "> ")
  {
    CrlfAppend(line, "\n" + "> ");
    CrlfAppend("\n", "> ");
    CrlfPlain(line);
    CrlfPlain("> ");
    assert "\n"[1..] == [] && Crlf("\n") == "\r\n" + Crlf([]);
  }

  predicate HeaderGood(data: Stream, at: nat) {
    && WordAt(data, at) == HEADER_MAGIC
    && WordAt(data, at + 20) == 1 && WordAt(data, at + 24) == 0 && WordAt(data, at + 28) == 0
  }

  /** The order and the range test of the C loader, which subtracts where the other adds. */
  function CVerdict(h: Header): (status: word)
    ensures status == OK <==> Fits(h)
  {
    if h.load < BASE || h.size == 0 then if h.size == 0 then BAD_SIZE else BAD_RANGE
    else
      var offset := h.load - BASE;
      if offset > BYTES || h.size > BYTES - offset then BAD_RANGE
      else if h.entry < h.load || h.entry >= (h.load + h.size) % W32 then BAD_ENTRY
      else OK
  }

  /** It reads the whole header before it looks at it. */
  function CBoot(sram: Sram, data: Stream, at: nat): Outcome {
    var cleared, h := Cleared(sram), HeaderAt(data, at);
    if !HeaderGood(data, at) then Rejected(cleared, at + 32, BAD_MAGIC)
    else if CVerdict(h) != OK then Rejected(cleared, at + 32, CVerdict(h))
    else LoadImage(cleared, data, at + 32, h)
  }
}
