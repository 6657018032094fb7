/** The divider-timed UART: the module itself, and what a receiver makes of a sender's
    bit stream on the same clock. */
module Uart {
  import opened Bits
  import opened UnifiedMem

  /** Eight data bits, least significant first, as they travel on the line. */
  type bits8 = s: seq<bool> | |s| == 8 witness seq(8, _ => false)

  type bits10 = s: seq<bool> | |s| == 10 witness seq(10, _ => true)

  datatype Receiver = Receiver(state: nat, divcnt: word, pattern: bits8, buf: bits8, valid: bool)

  datatype Sender = Sender(pattern: bits10, bitcnt: nat, divcnt: word, dummy: bool)

  function Ones(n: nat): (r: seq<bool>)
    ensures |r| == n
  {
    seq(n, _ => true)
  }

  function Zeros(): bits8 { seq(8, _ => false) }

  function ResetReceiver(): Receiver { Receiver(0, 0, Zeros(), Zeros(), false) }

  function ResetSender(): Sender { Sender(Ones(10), 0, 0, true) }

  function Up(n: word): word { (n + 1) % W32 }

  /** One clock of the receiver, with divider `d`; `2*recv_divcnt` is a 32-bit product. */
  function ReceiverNext(s: Receiver, d: word, line: bool, read: bool): Receiver {
    var a := s.(divcnt := Up(s.divcnt), valid := s.valid && !read);
    if s.state == 0 then a.(state := if line then 0 else 1, divcnt := 0)
    else if s.state == 1 then
      if 2 * s.divcnt % W32 > d then a.(state := 2, divcnt := 0) else a
    else if s.state == 10 then
      if s.divcnt > d then a.(buf := s.pattern, valid := true, state := 0) else a
    else if s.divcnt > d then
      a.(pattern := s.pattern[1..] + [line], state := (s.state + 1) % 16, divcnt := 0)
    else a

  }

  /** One clock of the sender; a divider write requests an idle period first. */
  function SenderNext(s: Sender, d: word, divWrite: bool, write: bool, data: bits8): Sender {
    var a := s.(divcnt := Up(s.divcnt), dummy := s.dummy || divWrite);
    if s.dummy && s.bitcnt == 0 then a.(pattern := Ones(10), bitcnt := 15, divcnt := 0, dummy := false)
    else if write && s.bitcnt == 0 then a.(pattern := [false] + data + [true], bitcnt := 10, divcnt := 0)
    else if s.divcnt > d && s.bitcnt != 0 then
      a.(pattern := s.pattern[1..] + [true], bitcnt := s.bitcnt - 1, divcnt := 0)
    else a
  }

  /** Byte-lane writes of the divider register. */
  function DividerNext(d: word, we: seq<bool>, di: word): word
    requires |we| == 4
  {
    WordOf(if we[0] then ByteOf(di, 0) else ByteOf(d, 0), if we[1] then ByteOf(di, 1) else ByteOf(d, 1),
           if we[2] then ByteOf(di, 2) else ByteOf(d, 2), if we[3] then ByteOf(di, 3) else ByteOf(d, 3))
  }

  datatype Inputs = Inputs(
    resetn: bool, line: bool, divWe: seq<bool>, divDi: word, write: bool, read: bool, data: bits8)

  class UartModule {
    const defaultDiv: word
    var divider: word
    var receiver: Receiver
    var sender: Sender

    constructor (defaultDiv: word)
      ensures divider == defaultDiv && receiver == ResetReceiver() && sender == ResetSender()
      ensures this.defaultDiv == defaultDiv
    {
      this.defaultDiv, divider := defaultDiv, defaultDiv;
      receiver, sender := ResetReceiver(), ResetSender();
    }

    method Clock(i: Inputs)
      requires |i.divWe| == 4
      modifies this
      ensures !i.resetn ==>
        divider == defaultDiv && receiver == ResetReceiver() && sender == ResetSender()
      ensures i.resetn ==>
        && divider == DividerNext(old(divider), i.divWe, i.divDi)
        && receiver == ReceiverNext(old(receiver), old(divider), i.line, i.read)
        && sender == SenderNext(old(sender), old(divider), true in i.divWe, i.write, i.data)
    {
      if !i.resetn {
        divider, receiver, sender := defaultDiv, ResetReceiver(), ResetSender();
        return;
      }
      var d := divider;
      divider := DividerNext(d, i.divWe, i.divDi);
      ClockReceiver(d, i.line, i.read);
      ClockSender(d, true in i.divWe, i.write, i.data);
    }

    method ClockReceiver(d: word, line: bool, read: bool)
      modifies this`receiver
      ensures receiver == ReceiverNext(old(receiver), d, line, read)
    {
      var s := receiver;
      receiver := receiver.(divcnt := Up(s.divcnt));
      if read {
        receiver := receiver.(valid := false);
      }
      if s.state == 0 {
        if !line { receiver := receiver.(state := 1); }
        receiver := receiver.(divcnt := 0);
      } else if s.state == 1 {
        if 2 * s.divcnt % W32 > d { receiver := receiver.(state := 2, divcnt := 0); }
      } else if s.state == 10 {
        if s.divcnt > d { receiver := receiver.(buf := s.pattern, valid := true, state := 0); }
      } else if s.divcnt > d {
        receiver := receiver.(pattern := s.pattern[1..] + [line], state := (s.state + 1) % 16, divcnt := 0);
      }
    }

    method ClockSender(d: word, divWrite: bool, write: bool, data: bits8)
      modifies this`sender
      ensures sender == SenderNext(old(sender), d, divWrite, write, data)
    {
      var s := sender;
      if divWrite { sender := sender.(dummy := true); }
      sender := sender.(divcnt := Up(s.divcnt));
      if s.dummy && s.bitcnt == 0 {
        sender := sender.(pattern := Ones(10), bitcnt := 15, divcnt := 0, dummy := false);
      } else if write && s.bitcnt == 0 {
        sender := sender.(pattern := [false] + data + [true], bitcnt := 10, divcnt := 0);
      } else if s.divcnt > d && s.bitcnt != 0 {
        sender := sender.(pattern := s.pattern[1..] + [true], bitcnt := s.bitcnt - 1, divcnt := 0);
      }
    }
  }

  // ------------------------------------------------------------------ a link

  datatype Link = Link(tx: Sender, rx: Receiver)

  /** What software does in one cycle at the two ends. */
  datatype Cycle = Cycle(write: bool, data: bits8, read: bool)

  function LinkNext(l: Link, d: word, c: Cycle): Link {
    Link(SenderNext(l.tx, d, false, c.write, c.data), ReceiverNext(l.rx, d, l.tx.pattern[0], c.read))
  }

  /** The byte accepted for sending in this cycle (a write with `reg_dat_wait` low). */
  function Accepts(l: Link, c: Cycle): seq<bits8> {
    if c.write && l.tx.bitcnt == 0 && !l.tx.dummy then [c.data] else []
  }

  /** The byte software takes out of the receive buffer in this cycle. */
  function Takes(l: Link, c: Cycle): seq<bits8> {
    if c.read && l.rx.valid then [l.rx.buf] else []
  }

  /** The buffer is free, or being read, when the next byte completes. */
  predicate NoOverrun(l: Link, d: word, c: Cycle) {
    l.rx.state == 10 && l.rx.divcnt > d ==> !l.rx.valid || c.read
  }

  // ------------------------------------------------------------------ where a frame stands

  /** The ten line bits of a byte. */
  function Frame(b: bits8): bits10 { [false] + b + [true] }

  /** Dividers for which the sampling point lies inside the bit. */
  predicate Works(d: word) { 1 <= d <= W32 - 3 }

  /** The cycle within each bit, counted from 0, at which the receiver acts. */
  function Sample(d: word): nat { d / 2 + 2 }

  /** The sender is in cycle `c` of bit `i` of byte `b`; every bit lasts d + 2 cycles. */
  ghost predicate SenderAt(s: Sender, d: word, b: bits8, i: nat, c: nat) {
    && i <= 9 && c <= d + 1
    && s.bitcnt == 10 - i && s.divcnt == c && !s.dummy
    && s.pattern == Frame(b)[i..] + Ones(i)
  }

  /** Where the receiver must then be: it has collected the bits sampled so far, and counts
      towards the same point of the current bit. */
  ghost predicate ReceiverAt(s: Receiver, d: word, b: bits8, i: nat, c: nat) {
    var m := Sample(d);
    if i == 0 then
      if c == 0 then s.state == 0
      else if c <= m then s.state == 1 && s.divcnt == c - 1
      else s.state == 2 && s.divcnt == c - m - 1
    else if i <= 8 then
      if c <= m then s.state == i + 1 && s.divcnt == d + 1 - m + c && s.pattern[9 - i..] == b[..i - 1]
      else s.state == i + 2 && s.divcnt == c - m - 1 && s.pattern[8 - i..] == b[..i]
    else
      if c <= m then s.state == 10 && s.divcnt == d + 1 - m + c && s.pattern == b
      else s.state == 0
  }

  /** The byte has been handed to the receive buffer. */
  predicate Handed(d: word, i: nat, c: nat) { i == 9 && c > Sample(d) }

  lemma SenderAdvances(s: Sender, d: word, b: bits8, i: nat, c: nat, write: bool, data: bits8)
    requires d <= W32 - 3 && SenderAt(s, d, b, i, c)
    ensures s.pattern[0] == Frame(b)[i]
    ensures var t := SenderNext(s, d, false, write, data);
      if c <= d then SenderAt(t, d, b, i, c + 1)
      else if i < 9 then SenderAt(t, d, b, i + 1, 0)
      else t.pattern == Ones(10) && t.bitcnt == 0 && !t.dummy
  {
    var t := SenderNext(s, d, false, write, data);
    if c == d + 1 {
      assert s.pattern[1..] + [true] == Frame(b)[i + 1..] + Ones(i + 1);
    }
  }

  /** The receiver after one cycle of a frame, at (i, c). */
  ghost predicate Advanced(s: Receiver, t: Receiver, d: word, b: bits8, i: nat, c: nat, read: bool)
    requires i <= 9
  {
    && (if c <= d then ReceiverAt(t, d, b, i, c + 1) else if i < 9 then ReceiverAt(t, d, b, i + 1, 0) else t.state == 0)
    && (if i == 9 && c == Sample(d) then t.valid && t.buf == b
        else t.buf == s.buf && t.valid == (s.valid && !read))
  }

  lemma StartBit(s: Receiver, d: word, b: bits8, c: nat, read: bool)
    requires Works(d) && c <= d + 1 && ReceiverAt(s, d, b, 0, c)
    ensures Advanced(s, ReceiverNext(s, d, false, read), d, b, 0, c, read)
  {
    if c == d + 1 {
      var t := ReceiverNext(s, d, false, read);
      assert t.pattern[8..] == [] == b[..0];
    }
  }

  lemma DataBit(s: Receiver, d: word, b: bits8, i: nat, c: nat, read: bool)
    requires Works(d) && 1 <= i <= 8 && c <= d + 1 && ReceiverAt(s, d, b, i, c)
    ensures Advanced(s, ReceiverNext(s, d, b[i - 1], read), d, b, i, c, read)
  {
    hide Advanced, ReceiverAt, ReceiverNext;
    SampleInside(d);
    if c == Sample(d) { DataSampled(s, d, b, i, c, read); }
    else if c <= d { DataHeld(s, d, b, i, c, read); }
    else { DataEnds(s, d, b, i, c, read); }
  }

  lemma DataSampled(s: Receiver, d: word, b: bits8, i: nat, c: nat, read: bool)
    requires Works(d) && 1 <= i <= 8 && c == Sample(d) && ReceiverAt(s, d, b, i, c)
    ensures Advanced(s, ReceiverNext(s, d, b[i - 1], read), d, b, i, c, read)
  {
    SampleInside(d);
    hide Sample;
    Shifted(s.pattern, b, i);
    if c == d + 1 && i == 8 {
      var t := ReceiverNext(s, d, b[7], read);
      assert t.pattern[0..] == t.pattern && b[..8] == b;
    }
  }

  lemma DataHeld(s: Receiver, d: word, b: bits8, i: nat, c: nat, read: bool)
    requires Works(d) && 1 <= i <= 8 && c <= d && c != Sample(d) && ReceiverAt(s, d, b, i, c)
    ensures Advanced(s, ReceiverNext(s, d, b[i - 1], read), d, b, i, c, read)
  {
    SampleInside(d);
    hide Sample;
  }

  lemma DataEnds(s: Receiver, d: word, b: bits8, i: nat, c: nat, read: bool)
    requires Works(d) && 1 <= i <= 8 && c == d + 1 && c > Sample(d) && ReceiverAt(s, d, b, i, c)
    ensures Advanced(s, ReceiverNext(s, d, b[i - 1], read), d, b, i, c, read)
  {
    SampleInside(d);
    hide Sample;
    if i == 8 {
      assert s.pattern[0..] == s.pattern && b[..8] == b;
    }
  }

  /** The receiver acts inside the bit it looks at. */
  lemma SampleInside(d: word)
    requires Works(d)
    ensures 2 <= Sample(d) <= d + 1
  {
  }

  /** Shifting in one more sampled bit. */
  lemma Shifted(p: bits8, b: bits8, i: nat)
    requires 1 <= i <= 8 && p[9 - i..] == b[..i - 1]
    ensures (p[1..] + [b[i - 1]])[8 - i..] == b[..i]
  {
    assert (p[1..] + [b[i - 1]])[8 - i..] == p[9 - i..] + [b[i - 1]];
  }

  lemma StopBit(s: Receiver, d: word, b: bits8, c: nat, read: bool)
    requires Works(d) && c <= d + 1 && ReceiverAt(s, d, b, 9, c)
    ensures Advanced(s, ReceiverNext(s, d, true, read), d, b, 9, c, read)
  {
  }

  lemma ReceiverAdvances(s: Receiver, d: word, b: bits8, i: nat, c: nat, read: bool)
    requires Works(d) && i <= 9 && c <= d + 1 && ReceiverAt(s, d, b, i, c)
    ensures Advanced(s, ReceiverNext(s, d, Frame(b)[i], read), d, b, i, c, read)
  {
    hide ReceiverNext, ReceiverAt, Advanced;
    if i == 0 { StartBit(s, d, b, c, read); }
    else if i <= 8 { DataBit(s, d, b, i, c, read); }
    else { StopBit(s, d, b, c, read); }
  }

  // ------------------------------------------------------------------ the link invariant

  /** Where the link stands: idle, or in cycle `c` of bit `i` of byte `b`. */
  datatype Place = Idle | Sending(b: bits8, i: nat, c: nat)

  ghost predicate At(l: Link, d: word, p: Place) {
    match p
    case Idle => l.tx.pattern == Ones(10) && l.rx.state == 0
    case Sending(b, i, c) => SenderAt(l.tx, d, b, i, c) && ReceiverAt(l.rx, d, b, i, c)
  }

  function Buffered(l: Link): seq<bits8> { if l.rx.valid then [l.rx.buf] else [] }

  function InFlight(d: word, p: Place): seq<bits8> {
    if p.Sending? && !Handed(d, p.i, p.c) then [p.b] else []
  }

  /** Every byte accepted so far is taken, or buffered, or on the line; in that order. */
  ghost predicate Conserved(l: Link, d: word, p: Place, sent: seq<bits8>, got: seq<bits8>) {
    At(l, d, p) && sent == got + Buffered(l) + InFlight(d, p)
  }

  function NextPlace(l: Link, d: word, p: Place, c: Cycle): Place {
    match p
    case Idle => if Accepts(l, c) != [] then Sending(c.data, 0, 0) else Idle
    case Sending(b, i, k) =>
      if k <= d then Sending(b, i, k + 1) else if i < 9 then Sending(b, i + 1, 0) else Idle
  }

  lemma IdleStep(l: Link, d: word, c: Cycle, sent: seq<bits8>, got: seq<bits8>)
    requires Works(d) && Conserved(l, d, Idle, sent, got)
    ensures Conserved(LinkNext(l, d, c), d, NextPlace(l, d, Idle, c), sent + Accepts(l, c), got + Takes(l, c))
  {
    var t := LinkNext(l, d, c);
    if Accepts(l, c) != [] {
      assert Frame(c.data)[0..] + Ones(0) == Frame(c.data);
    } else {
      assert Ones(10)[1..] + [true] == Ones(10);
    }
    assert got + Takes(l, c) + Buffered(t) == got + Buffered(l);
  }

  lemma FrameStep(l: Link, d: word, p: Place, c: Cycle, sent: seq<bits8>, got: seq<bits8>)
    requires Works(d) && p.Sending? && Conserved(l, d, p, sent, got) && NoOverrun(l, d, c)
    ensures Conserved(LinkNext(l, d, c), d, NextPlace(l, d, p, c), sent + Accepts(l, c), got + Takes(l, c))
  {
    hide ReceiverNext, SenderNext, Frame, ReceiverAt;
    var Sending(b, i, k) := p;
    SenderAdvances(l.tx, d, b, i, k, c.write, c.data);
    ReceiverAdvances(l.rx, d, b, i, k, c.read);
    Completing(l.rx, d, b, i, k);
    var t := LinkNext(l, d, c);
    if i == 9 && k == Sample(d) {
      ByteHanded(l, t, c, b, got);
    } else {
      ByteWaits(l, t, c, InFlight(d, p), got);
    }
  }

  /** The byte on the line moves into the buffer, which is free or being read. */
  lemma ByteHanded(l: Link, t: Link, c: Cycle, b: bits8, got: seq<bits8>)
    requires t.rx.valid && t.rx.buf == b && (!l.rx.valid || c.read)
    ensures got + Takes(l, c) + Buffered(t) + [] == got + Buffered(l) + [b]
  {
  }

  /** Otherwise a byte only moves from the buffer to the reader. */
  lemma ByteWaits(l: Link, t: Link, c: Cycle, rest: seq<bits8>, got: seq<bits8>)
    requires t.rx.buf == l.rx.buf && t.rx.valid == (l.rx.valid && !c.read)
    ensures got + Takes(l, c) + Buffered(t) + rest == got + Buffered(l) + rest
  {
  }

  /** The receiver completes a byte exactly at the sampling point of the stop bit. */
  lemma Completing(s: Receiver, d: word, b: bits8, i: nat, c: nat)
    requires Works(d) && i <= 9 && c <= d + 1 && ReceiverAt(s, d, b, i, c)
    ensures s.state == 10 && s.divcnt > d <==> i == 9 && c == Sample(d)
  {
  }

  // ------------------------------------------------------------------ whole runs

  ghost function Run(l: Link, d: word, cs: seq<Cycle>): Link
    decreases |cs|
  {
    if cs == [] then l else Run(LinkNext(l, d, cs[0]), d, cs[1..])
  }

  ghost function Sent(l: Link, d: word, cs: seq<Cycle>): seq<bits8>
    decreases |cs|
  {
    if cs == [] then [] else Accepts(l, cs[0]) + Sent(LinkNext(l, d, cs[0]), d, cs[1..])
  }

  ghost function Got(l: Link, d: word, cs: seq<Cycle>): seq<bits8>
    decreases |cs|
  {
    if cs == [] then [] else Takes(l, cs[0]) + Got(LinkNext(l, d, cs[0]), d, cs[1..])
  }

  ghost predicate NeverOverrun(l: Link, d: word, cs: seq<Cycle>)
    decreases |cs|
  {
    cs == [] || (NoOverrun(l, d, cs[0]) && NeverOverrun(LinkNext(l, d, cs[0]), d, cs[1..]))
  }

  ghost function PlaceAfter(l: Link, d: word, p: Place, cs: seq<Cycle>): Place
    decreases |cs|
  {
    if cs == [] then p else PlaceAfter(LinkNext(l, d, cs[0]), d, NextPlace(l, d, p, cs[0]), cs[1..])
  }

  lemma {:induction false} RunConserves(l: Link, d: word, p: Place, cs: seq<Cycle>, sent: seq<bits8>, got: seq<bits8>)
    requires Works(d) && Conserved(l, d, p, sent, got) && NeverOverrun(l, d, cs)
    ensures Conserved(Run(l, d, cs), d, PlaceAfter(l, d, p, cs), sent + Sent(l, d, cs), got + Got(l, d, cs))
    decreases |cs|
  {
    hide Conserved, LinkNext, Accepts, Takes, NextPlace, NoOverrun;
    if cs == [] {
      assert sent + [] == sent && got + [] == got;
    } else {
      var c := cs[0];
      if p.Idle? { IdleStep(l, d, c, sent, got); } else { FrameStep(l, d, p, c, sent, got); }
      var t := LinkNext(l, d, c);
      RunConserves(t, d, NextPlace(l, d, p, c), cs[1..], sent + Accepts(l, c), got + Takes(l, c));
      assert sent + Accepts(l, c) + Sent(t, d, cs[1..]) == sent + Sent(l, d, cs);
      assert got + Takes(l, c) + Got(t, d, cs[1..]) == got + Got(l, d, cs);
    }
  }

  function StartLink(): Link { Link(ResetSender(), ResetReceiver()) }

  /** Stream transparency: from reset, for every schedule of writes (back to back or not)
      and every schedule of reads that never overruns the buffer, the bytes read are the
      bytes accepted, in order; at most one is buffered and one still on the line. */
  lemma StreamTransparency(d: word, cs: seq<Cycle>)
    requires Works(d) && NeverOverrun(StartLink(), d, cs)
    ensures var l, p := Run(StartLink(), d, cs), PlaceAfter(StartLink(), d, Idle, cs);
      && At(l, d, p)
      && Sent(StartLink(), d, cs) == Got(StartLink(), d, cs) + Buffered(l) + InFlight(d, p)
  {
    RunConserves(StartLink(), d, Idle, cs, [], []);
    assert [] + Sent(StartLink(), d, cs) == Sent(StartLink(), d, cs);
    assert [] + Got(StartLink(), d, cs) == Got(StartLink(), d, cs);
  }

  // ------------------------------------------------------------------ one frame on its own

  function QuietCycle(): Cycle { Cycle(false, Zeros(), false) }

  /** `n` cycles in which software does nothing at either end. */
  function QuietRun(l: Link, d: word, n: nat): Link {
    if n == 0 then l else LinkNext(QuietRun(l, d, n - 1), d, QuietCycle())
  }

  /** The cycle after byte `b` has been accepted, with an idle receiver. */
  function FrameStart(b: bits8): Link {
    Link(Sender(Frame(b), 10, 0, false), ResetReceiver())
  }

  /** In a lone frame every bit occupies d + 2 cycles and is sampled inside them. */
  lemma {:induction false} FrameTiming(d: word, b: bits8, i: nat, c: nat)
    requires Works(d) && i <= 9 && c <= d + 1
    ensures var l := QuietRun(FrameStart(b), d, i * (d + 2) + c);
      && At(l, d, Sending(b, i, c))
      && l.rx.valid == Handed(d, i, c) && (l.rx.valid ==> l.rx.buf == b)
    decreases i, c
  {
    hide ReceiverNext, SenderNext, ReceiverAt, SenderAt, Frame;
    if i == 0 && c == 0 {
      FrameStarts(d, b);
    } else {
      var pi, pc := if c > 0 then i else i - 1, if c > 0 then c - 1 else d + 1;
      assert i * (d + 2) + c == pi * (d + 2) + pc + 1 by {
        assert (i - 1) * (d + 2) == i * (d + 2) - (d + 2);
      }
      FrameTiming(d, b, pi, pc);
      var l := QuietRun(FrameStart(b), d, pi * (d + 2) + pc);
      SenderAdvances(l.tx, d, b, pi, pc, false, Zeros());
      ReceiverAdvances(l.rx, d, b, pi, pc, false);
    }
  }

  lemma FrameStarts(d: word, b: bits8)
    ensures At(FrameStart(b), d, Sending(b, 0, 0))
  {
    assert Frame(b)[0..] + Ones(0) == Frame(b);
  }

  /** With a divider too large for the doubled counter the receiver never leaves the start
      bit, whatever software does. */
  lemma StuckInStart(s: Receiver, d: word, line: bool, read: bool)
    requires d >= W32 - 2 && s.state == 1 && !s.valid
    ensures var t := ReceiverNext(s, d, line, read); t.state == 1 && !t.valid
  {
    EvenProduct(s.divcnt);
  }

  lemma EvenProduct(k: word)
    ensures 2 * k % W32 <= W32 - 2
  {
    var h := W32 / 2;
    if k >= h { DivModUnique(2 * k, W32, 1, 2 * (k - h)); } else { DivModUnique(2 * k, W32, 0, 2 * k); }
  }

  /** With divider 0 the receiver samples each bit one bit late. */
  ghost predicate Late(l: Link, b: bits8, i: nat) {
    SenderAt(l.tx, 0, b, i, 0) && l.rx.state == i && l.rx.divcnt == 1 && !l.rx.valid
  }

  lemma LateBit(l: Link, b: bits8, i: nat)
    requires Late(l, b, i) && 2 <= i <= 8
    ensures Late(LinkNext(LinkNext(l, 0, QuietCycle()), 0, QuietCycle()), b, i + 1)
  {
    var k := LinkNext(l, 0, QuietCycle());
    SenderAdvances(l.tx, 0, b, i, 0, false, Zeros());
    SenderAdvances(k.tx, 0, b, i, 1, false, Zeros());
    hide SenderNext;
  }

  lemma LateStart(b: bits8)
    ensures Late(QuietRun(FrameStart(b), 0, 4), b, 2)
  {
    FrameStarts(0, b);
    var l0 := QuietRun(FrameStart(b), 0, 0);
    var l1, l2, l3 := QuietRun(FrameStart(b), 0, 1), QuietRun(FrameStart(b), 0, 2), QuietRun(FrameStart(b), 0, 3);
    SenderAdvances(l0.tx, 0, b, 0, 0, false, Zeros());
    SenderAdvances(l1.tx, 0, b, 0, 1, false, Zeros());
    SenderAdvances(l2.tx, 0, b, 1, 0, false, Zeros());
    SenderAdvances(l3.tx, 0, b, 1, 1, false, Zeros());
    hide SenderNext;
  }

  lemma {:induction false} LateUntil(b: bits8, i: nat)
    requires 2 <= i <= 9
    ensures Late(QuietRun(FrameStart(b), 0, 2 * i), b, i)
  {
    if i == 2 {
      LateStart(b);
    } else {
      LateUntil(b, i - 1);
      var l := QuietRun(FrameStart(b), 0, 2 * (i - 1));
      LateBit(l, b, i - 1);
      assert QuietRun(FrameStart(b), 0, 2 * i) == LinkNext(QuietRun(FrameStart(b), 0, 2 * i - 1), 0, QuietCycle());
      assert QuietRun(FrameStart(b), 0, 2 * i - 1) == LinkNext(l, 0, QuietCycle());
    }
  }

  /** With divider 0 the byte 0 is delivered as another one, at the end of its frame. */
  lemma TooFast(b: bits8)
    ensures !QuietRun(FrameStart(b), 0, 20).rx.valid
    ensures var l := QuietRun(FrameStart(b), 0, 21); l.rx.valid && l.rx.buf[7]
  {
    LateUntil(b, 9);
    var l18, l19 := QuietRun(FrameStart(b), 0, 18), QuietRun(FrameStart(b), 0, 19);
    var l20 := QuietRun(FrameStart(b), 0, 20);
    SenderAdvances(l18.tx, 0, b, 9, 0, false, Zeros());
    SenderAdvances(l19.tx, 0, b, 9, 1, false, Zeros());
    hide SenderNext;
    assert l19 == LinkNext(l18, 0, QuietCycle()) && l20 == LinkNext(l19, 0, QuietCycle());
    assert l19.rx.pattern[7];
    assert QuietRun(FrameStart(b), 0, 21) == LinkNext(l20, 0, QuietCycle());
  }

  // ------------------------------------------------------------------ runs from reset

  function Quiet(n: nat): seq<Cycle> { seq(n, _ => QuietCycle()) }

  function Write(b: bits8): Cycle { Cycle(true, b, false) }

  /** Running one schedule after another. */
  lemma {:induction false} RunJoin(l: Link, d: word, a: seq<Cycle>, b: seq<Cycle>)
    ensures var m := Run(l, d, a);
      && Run(l, d, a + b) == Run(m, d, b)
      && Sent(l, d, a + b) == Sent(l, d, a) + Sent(m, d, b)
      && Got(l, d, a + b) == Got(l, d, a) + Got(m, d, b)
      && (NeverOverrun(l, d, a + b) <==> NeverOverrun(l, d, a) && NeverOverrun(m, d, b))
    decreases |a|
  {
    hide LinkNext, Accepts, Takes, NoOverrun;
    if a == [] {
      assert a + b == b;
    } else {
      assert (a + b)[1..] == a[1..] + b && (a + b)[0] == a[0];
      RunJoin(LinkNext(l, d, a[0]), d, a[1..], b);
    }
  }

  lemma OneCycle(l: Link, d: word, c: Cycle)
    ensures Run(l, d, [c]) == LinkNext(l, d, c) && Sent(l, d, [c]) == Accepts(l, c) && Got(l, d, [c]) == Takes(l, c)
    ensures NeverOverrun(l, d, [c]) == NoOverrun(l, d, c)
  {
    hide LinkNext, Accepts, Takes, NoOverrun;
    var t := LinkNext(l, d, c);
    assert [c][1..] == [];
    assert Run(t, d, []) == t && Sent(t, d, []) == [] && Got(t, d, []) == [] && NeverOverrun(t, d, []);
  }

  /** In a quiet run nothing is sent or read, and it overruns nothing up to the cycle in which
      the buffer is first filled. */
  lemma {:induction false} QuietIs(l: Link, d: word, n: nat)
    ensures Run(l, d, Quiet(n)) == QuietRun(l, d, n)
    ensures Sent(l, d, Quiet(n)) == [] && Got(l, d, Quiet(n)) == []
    ensures n > 0 && !QuietRun(l, d, n - 1).rx.valid ==> NeverOverrun(l, d, Quiet(n))
  {
    hide LinkNext;
    if n == 0 {
    } else {
      QuietIs(l, d, n - 1);
      var k, c := QuietRun(l, d, n - 1), QuietCycle();
      assert Quiet(n) == Quiet(n - 1) + [c];
      RunJoin(l, d, Quiet(n - 1), [c]);
      OneCycle(k, d, c);
      if n > 1 && QuietRun(l, d, n - 2).rx.valid { ValidStays(QuietRun(l, d, n - 2), d); }
    }
  }

  lemma ValidStays(l: Link, d: word)
    requires l.rx.valid
    ensures LinkNext(l, d, QuietCycle()).rx.valid
  {
  }

  /** A quiet cycle of a sender in cycle c of a bit. */
  lemma CountStep(s: Sender, d: word, c: nat)
    requires d <= W32 - 2 && !s.dummy && s.bitcnt > 0 && s.divcnt == c <= d + 1
    ensures var t := SenderNext(s, d, false, false, Zeros());
      if c <= d then t == s.(divcnt := c + 1)
      else t.bitcnt == s.bitcnt - 1 && t.divcnt == 0 && !t.dummy && (s.pattern == Ones(10) ==> t.pattern == Ones(10))
  {
    assert Ones(10)[1..] + [true] == Ones(10);
  }

  /** A quiet sender counts its bits down, d + 2 cycles each, and ends idle; the line stays
      high if it was. */
  lemma {:induction false} CountsDown(l: Link, d: word, j: nat, c: nat)
    requires d <= W32 - 2 && l.tx.divcnt == 0 && !l.tx.dummy
    requires c <= d + 1 && j <= l.tx.bitcnt && (c > 0 ==> j < l.tx.bitcnt)
    ensures var t := QuietRun(l, d, j * (d + 2) + c).tx;
      && t.bitcnt == l.tx.bitcnt - j && t.divcnt == c && !t.dummy
      && (l.tx.pattern == Ones(10) ==> t.pattern == Ones(10))
    decreases j, c
  {
    hide SenderNext, ReceiverNext, Ones;
    if j == 0 && c == 0 {
    } else {
      var pj, pc := if c > 0 then j else j - 1, if c > 0 then c - 1 else d + 1;
      assert j * (d + 2) + c == pj * (d + 2) + pc + 1 by {
        assert (j - 1) * (d + 2) == j * (d + 2) - (d + 2);
      }
      CountsDown(l, d, pj, pc);
      var k := QuietRun(l, d, pj * (d + 2) + pc);
      CountStep(k.tx, d, pc);
      assert QuietRun(l, d, j * (d + 2) + c) == LinkNext(k, d, QuietCycle());
    }
  }

  /** On a high line an idle receiver stays in its reset state. */
  lemma {:induction false} ListensIdle(l: Link, d: word, n: nat)
    requires l.rx == ResetReceiver()
    requires forall k: nat | k < n :: QuietRun(l, d, k).tx.pattern == Ones(10)
    ensures QuietRun(l, d, n).rx == ResetReceiver()
  {
    if n == 0 {
    } else {
      ListensIdle(l, d, n - 1);
      assert QuietRun(l, d, n - 1).tx.pattern[0];
    }
  }

  /** The idle period after reset: fifteen bits on a high line. */
  lemma IdlePeriod(l: Link, d: word, n: nat)
    requires d <= W32 - 2 && l.rx == ResetReceiver() && l.tx == Sender(Ones(10), 15, 0, false) && n <= 15 * (d + 2)
    ensures QuietRun(l, d, n).rx == ResetReceiver()
    ensures n == 15 * (d + 2) ==> QuietRun(l, d, n).tx == Sender(Ones(10), 0, 0, false)
  {
    hide LinkNext, QuietRun;
    forall k: nat | k < n ensures QuietRun(l, d, k).tx.pattern == Ones(10) {
      var j, c := InBit(k, d + 2);
      CountsDown(l, d, j, c);
    }
    ListensIdle(l, d, n);
    CountsDown(l, d, 15, 0);
  }

  lemma InBit(k: nat, period: nat) returns (j: nat, c: nat)
    requires period > 0 && k < 15 * period
    ensures k == j * period + c && j < 15 && c < period
  {
    j, c := k / period, k % period;
    if j >= 15 { MulMonotone(15, j, period); }
  }

  /** From reset until byte `b` has been accepted: software waits for the idle period. */
  function Opening(d: word, b: bits8): seq<Cycle> {
    [QuietCycle()] + (Quiet(15 * (d + 2)) + [Write(b)])
  }

  lemma Opens(d: word, b: bits8)
    requires d <= W32 - 2
    ensures var cs := Opening(d, b);
      && Run(StartLink(), d, cs) == FrameStart(b) && NeverOverrun(StartLink(), d, cs)
      && Sent(StartLink(), d, cs) == [b] && Got(StartLink(), d, cs) == []
  {
    var n, c := 15 * (d + 2), QuietCycle();
    var l0, l1 := StartLink(), LinkNext(StartLink(), d, QuietCycle());
    WakesUp(d);
    IdlePeriod(l1, d, n - 1);
    IdlePeriod(l1, d, n);
    QuietIs(l1, d, n);
    var l2 := QuietRun(l1, d, n);
    TakesWrite(l2, d, b);
    OneCycle(l0, d, c);
    OneCycle(l2, d, Write(b));
    hide LinkNext, Accepts, Takes, NoOverrun, QuietRun;
    RunJoin(l1, d, Quiet(n), [Write(b)]);
    RunJoin(l0, d, [c], Quiet(n) + [Write(b)]);
  }

  lemma WakesUp(d: word)
    ensures var l := StartLink();
      && LinkNext(l, d, QuietCycle()) == Link(Sender(Ones(10), 15, 0, false), ResetReceiver())
      && Accepts(l, QuietCycle()) == [] && Takes(l, QuietCycle()) == [] && NoOverrun(l, d, QuietCycle())
  {
  }

  lemma TakesWrite(l: Link, d: word, b: bits8)
    requires l == Link(Sender(Ones(10), 0, 0, false), ResetReceiver())
    ensures LinkNext(l, d, Write(b)) == FrameStart(b)
    ensures Accepts(l, Write(b)) == [b] && Takes(l, Write(b)) == [] && NoOverrun(l, d, Write(b))
  {
  }

  // ------------------------------------------------------------------ exactly the dividers that work

  /** What software has read or could read after a schedule. */
  ghost function Arrived(d: word, cs: seq<Cycle>): seq<bits8> {
    Got(StartLink(), d, cs) + Buffered(Run(StartLink(), d, cs))
  }

  /** Over every run from reset that never overruns the buffer: what has arrived is what was
      accepted, in order, up to at most one byte still on the line. */
  ghost predicate Delivers(d: word) {
    forall cs | NeverOverrun(StartLink(), d, cs) :: Prompt(Arrived(d, cs), Sent(StartLink(), d, cs))
  }

  predicate Prompt(arrived: seq<bits8>, sent: seq<bits8>) { arrived <= sent && |sent| <= |arrived| + 1 }

  /** Some run from reset in which byte `b` alone is sent, and arrives. */
  ghost predicate Arrives(d: word, b: bits8) {
    exists cs :: NeverOverrun(StartLink(), d, cs) && Sent(StartLink(), d, cs) == [b] && Arrived(d, cs) == [b]
  }

  /** A byte sent alone has arrived at the sampling point of its stop bit. */
  lemma LoneByte(d: word, b: bits8)
    requires Works(d)
    ensures Arrives(d, b)
  {
    hide SenderNext, ReceiverNext, ReceiverAt, SenderAt, Frame;
    var n := 9 * (d + 2) + Sample(d);
    SampleInside(d);
    FrameTiming(d, b, 9, Sample(d));
    var l := QuietRun(FrameStart(b), d, n);
    ReceiverAdvances(l.rx, d, b, 9, Sample(d), false);
    SenderAdvances(l.tx, d, b, 9, Sample(d), false, Zeros());
    assert QuietRun(FrameStart(b), d, n + 1) == LinkNext(l, d, QuietCycle());
    Then(d, b, n + 1);
    assert NeverOverrun(StartLink(), d, Opening(d, b) + Quiet(n + 1));
  }

  /** A byte accepted, then n quiet cycles. */
  lemma Then(d: word, b: bits8, n: nat)
    requires d <= W32 - 2
    ensures var cs, l := Opening(d, b) + Quiet(n), QuietRun(FrameStart(b), d, n);
      && Run(StartLink(), d, cs) == l && Sent(StartLink(), d, cs) == [b] && Arrived(d, cs) == Buffered(l)
      && (n > 0 && !QuietRun(FrameStart(b), d, n - 1).rx.valid ==> NeverOverrun(StartLink(), d, cs))
  {
    hide LinkNext, Accepts, Takes, NoOverrun, QuietRun;
    Opens(d, b);
    QuietIs(FrameStart(b), d, n);
    RunJoin(StartLink(), d, Opening(d, b), Quiet(n));
  }

  lemma DividerZero()
    ensures !Delivers(0)
  {
    var cs := Opening(0, Zeros()) + Quiet(21);
    TooFast(Zeros());
    Then(0, Zeros(), 21);
    assert Arrived(0, cs)[0] != Zeros();
    assert NeverOverrun(StartLink(), 0, cs) && !Prompt(Arrived(0, cs), Sent(StartLink(), 0, cs));
  }

  /** A frame and the next byte: the receiver is still in the start bit. */
  lemma {:induction false} StuckRun(l: Link, d: word, cs: seq<Cycle>)
    requires d >= W32 - 2 && l.rx.state == 1 && !l.rx.valid
    ensures NeverOverrun(l, d, cs) && Got(l, d, cs) == [] && !Run(l, d, cs).rx.valid
    decreases |cs|
  {
    hide SenderNext;
    if cs == [] {
    } else {
      StuckInStart(l.rx, d, l.tx.pattern[0], cs[0].read);
      StuckRun(LinkNext(l, d, cs[0]), d, cs[1..]);
    }
  }

  /** With divider 2^32 - 2 two bytes go out and none arrives. */
  lemma DividerSlow(d: word)
    requires d == W32 - 2
    ensures !Delivers(d)
  {
    var b, n := Zeros(), 10 * (d + 2);
    var l := FrameStart(b);
    var cs := Quiet(n) + [Write(b)];
    Opens(d, b);
    QuietIs(l, d, n);
    CountsDown(l, d, 10, 0);
    var t := QuietRun(l, d, n);
    OneCycle(t, d, Write(b));
    assert Accepts(t, Write(b)) == [b];
    FirstStuck(l, d, b, cs);
    hide LinkNext, Accepts, Takes, NoOverrun, QuietRun, FrameStart;
    RunJoin(l, d, Quiet(n), [Write(b)]);
    RunJoin(StartLink(), d, Opening(d, b), cs);
    var all := Opening(d, b) + cs;
    assert |Sent(StartLink(), d, all)| == 2 && Arrived(d, all) == [];
    assert !Prompt(Arrived(d, all), Sent(StartLink(), d, all));
  }

  lemma FirstStuck(l: Link, d: word, b: bits8, cs: seq<Cycle>)
    requires d >= W32 - 2 && l == FrameStart(b) && cs != []
    ensures NeverOverrun(l, d, cs) && Got(l, d, cs) == [] && !Run(l, d, cs).rx.valid
  {
    StuckRun(LinkNext(l, d, cs[0]), d, cs[1..]);
  }

  /** With divider 2^32 - 1 the idle period after reset never ends: nothing is ever sent. */
  lemma {:induction false} NeverSends(l: Link, d: word, cs: seq<Cycle>)
    requires d == W32 - 1 && l.rx.state == 0 && !l.rx.valid && l.tx.pattern == Ones(10)
    requires l.tx.dummy || l.tx.bitcnt != 0
    ensures Sent(l, d, cs) == [] && Got(l, d, cs) == [] && !Run(l, d, cs).rx.valid
    decreases |cs|
  {
    if cs == [] {
    } else {
      NeverSends(LinkNext(l, d, cs[0]), d, cs[1..]);
    }
  }

  lemma DividerMax(d: word)
    requires d == W32 - 1
    ensures Delivers(d) && forall b :: !Arrives(d, b)
  {
    forall cs ensures Sent(StartLink(), d, cs) == [] && Arrived(d, cs) == [] {
      NeverSends(StartLink(), d, cs);
    }
  }

  lemma WorkingDelivers(d: word)
    requires Works(d)
    ensures Delivers(d)
  {
    forall cs | NeverOverrun(StartLink(), d, cs) ensures Prompt(Arrived(d, cs), Sent(StartLink(), d, cs)) {
      StreamTransparency(d, cs);
    }
  }

  /** Over runs from reset: the receiver gets what the sender accepts, in order and with at
      most one byte on the way, exactly for the dividers 1 to 2^32 - 3 and for 2^32 - 1, which
      never sends anything; so the stream is kept and every byte can get through exactly for
      the dividers 1 to 2^32 - 3. */
  lemma WorkingDividers(d: word)
    ensures Delivers(d) <==> Works(d) || d == W32 - 1
    ensures (Delivers(d) && forall b :: Arrives(d, b)) <==> 1 <= d <= W32 - 3
  {
    hide Delivers, Arrives;
    if Works(d) {
      WorkingDelivers(d);
      forall b ensures Arrives(d, b) { LoneByte(d, b); }
    } else if d == 0 {
      DividerZero();
    } else if d == W32 - 2 {
      DividerSlow(d);
    } else {
      DividerMax(d);
      assert !Arrives(d, Zeros());
    }
  }

  // ------------------------------------------------------------------ writing the divider

  /** Byte k of the divider is replaced exactly when strobe k is set; so four strobes leave the
      value written, and none leaves the divider alone. */
  lemma DividerBytes(d: word, we: seq<bool>, di: word)
    requires |we| == 4
    ensures forall k: nat | k < 4 ::
      ByteOf(DividerNext(d, we, di), k) == if we[k] then ByteOf(di, k) else ByteOf(d, k)
    ensures (forall k | 0 <= k < 4 :: we[k]) ==> DividerNext(d, we, di) == di
    ensures (forall k | 0 <= k < 4 :: !we[k]) ==> DividerNext(d, we, di) == d
  {
    hide ByteOf;
    SplitWord(d);
    SplitWord(di);
    JoinBytes(if we[0] then ByteOf(di, 0) else ByteOf(d, 0), if we[1] then ByteOf(di, 1) else ByteOf(d, 1),
              if we[2] then ByteOf(di, 2) else ByteOf(d, 2), if we[3] then ByteOf(di, 3) else ByteOf(d, 3));
  }

  /** A link whose two ends are configured together. */
  datatype Configured = Configured(divider: word, link: Link)

  /** One cycle in which the divider may be written. */
  function ConfiguredNext(w: Configured, we: seq<bool>, di: word, c: Cycle): Configured
    requires |we| == 4
  {
    Configured(DividerNext(w.divider, we, di),
               Link(SenderNext(w.link.tx, w.divider, true in we, c.write, c.data),
                    ReceiverNext(w.link.rx, w.divider, w.link.tx.pattern[0], c.read)))
  }

  /** The line is high and both ends wait. */
  predicate Resting(l: Link) { l.tx.pattern == Ones(10) && l.tx.bitcnt == 0 && l.rx.state == 0 }

  /** A sender with b bits and more to go accepts nothing, whatever software tries. */
  lemma {:induction false} AcceptsNothing(l: Link, d: word, cs: seq<Cycle>, c: nat)
    requires d <= W32 - 2 && !l.tx.dummy && l.tx.divcnt == c <= d + 1
    requires |cs| <= l.tx.bitcnt * (d + 2) - c
    ensures Sent(l, d, cs) == []
    decreases |cs|
  {
    if cs == [] {
    } else {
      var t := SenderNext(l.tx, d, false, cs[0].write, cs[0].data);
      BusyStep(l.tx, d, c, cs[0]);
      assert (l.tx.bitcnt - 1) * (d + 2) == l.tx.bitcnt * (d + 2) - (d + 2);
      hide SenderNext, ReceiverNext;
      AcceptsNothing(LinkNext(l, d, cs[0]), d, cs[1..], if c <= d then c + 1 else 0);
    }
  }

  lemma BusyStep(s: Sender, d: word, c: nat, i: Cycle)
    requires d <= W32 - 2 && !s.dummy && s.bitcnt > 0 && s.divcnt == c <= d + 1
    ensures var t := SenderNext(s, d, false, i.write, i.data);
      !t.dummy && if c <= d then t.bitcnt == s.bitcnt && t.divcnt == c + 1
                  else t.bitcnt == s.bitcnt - 1 && t.divcnt == 0
  {
  }

  /** Writing a working divider while the line rests: it takes effect whole; the sender then
      keeps the line high for fifteen bits, in which it accepts nothing; and from there on every
      schedule that never overruns delivers the bytes accepted, in order. */
  lemma DividerWritten(w: Configured, di: word, c: Cycle, cs: seq<Cycle>)
    requires Resting(w.link) && !w.link.tx.dummy && Works(di) && !c.write
    ensures var t := ConfiguredNext(w, [true, true, true, true], di, c);
      && t.divider == di && Resting(t.link) && t.link.tx.dummy
      && (|cs| <= 1 + 15 * (di + 2) ==> Sent(t.link, di, cs) == [])
      && (NeverOverrun(t.link, di, cs) ==>
            var l, p := Run(t.link, di, cs), PlaceAfter(t.link, di, Idle, cs);
            Buffered(t.link) + Sent(t.link, di, cs) == Got(t.link, di, cs) + Buffered(l) + InFlight(di, p))
  {
    var we: seq<bool> := [true, true, true, true];
    var t := ConfiguredNext(w, we, di, c);
    DividerBytes(w.divider, we, di);
    RestWritten(w, we, di, c);
    hide SenderNext, ReceiverNext, DividerNext;
    if |cs| <= 1 + 15 * (di + 2) && cs != [] {
      DummyStep(t.link, di, cs[0]);
      AcceptsNothing(LinkNext(t.link, di, cs[0]), di, cs[1..], 0);
    }
    if NeverOverrun(t.link, di, cs) {
      RunConserves(t.link, di, Idle, cs, Buffered(t.link), []);
      assert [] + Got(t.link, di, cs) == Got(t.link, di, cs);
      assert [] + Buffered(t.link) + [] == Buffered(t.link);
    }
  }

  lemma RestWritten(w: Configured, we: seq<bool>, di: word, c: Cycle)
    requires Resting(w.link) && !w.link.tx.dummy && |we| == 4 && we[0] && !c.write
    ensures var t := ConfiguredNext(w, we, di, c); Resting(t.link) && t.link.tx.dummy
  {
  }

  lemma DummyStep(l: Link, d: word, c: Cycle)
    requires l.tx.dummy && l.tx.bitcnt == 0
    ensures Accepts(l, c) == []
    ensures var t := LinkNext(l, d, c).tx; !t.dummy && t.bitcnt == 15 && t.divcnt == 0
  {
  }
}
