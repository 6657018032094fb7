/** What software reads of the read side: the frontend's queue status, the fetch engine's last
    request, the payload engine's counters, and who gets the port. */
module AxiStatus {
  import opened Bits
  import opened AxiTypes
  import opened AxiRead
  import opened EmuReports

  // ------------------------------------------------------------------ the ring

  /** The frontend counts ring entries as the emulator does. */
  lemma EntriesAgree(size: word)
    ensures F.Entries(size) == EmuSpec.EntryCount(size)
    ensures var n := F.Entries(size); if size < 32 then n == 1 else 32 * n <= size < 32 * (n + 1)
  {
    EmuSpec.EntryCountLargest(size);
  }

  // ------------------------------------------------------------------ the queue status

  lemma {:induction false} ProcessedCounts(s: System, cs: seq<Cycle>, g: Config, n: nat)
    requires s.front.processed == n % W32
    ensures Run(s, cs, g).front.processed == (n + |Retired(s, cs, g)|) % W32
    decreases |cs|
  {
    hide Next;
    if cs == [] {
    } else {
      ProcessedStep(s, cs[0], g, n);
      ProcessedCounts(Next(s, cs[0], g), cs[1..], g, if Retires(s) then n + 1 else n);
    }
  }

  lemma ProcessedStep(s: System, c: Cycle, g: Config, n: nat)
    requires s.front.processed == n % W32
    ensures Next(s, c, g).front.processed == (if Retires(s) then n + 1 else n) % W32
  {
    hide F.Entries, F.StatusWord, D.Next, N.Next, SlaveNext;
    ModSuccessor(s.front.processed, n, W32);
  }

  /** In every cycle of every run the status word says, of the state before the edge: BUSY iff
      a descriptor was requested or being fetched; EMPTY iff none was and head equalled tail;
      ERROR iff the sticky flag or the error pulse was up; and in its upper half the number of
      descriptors retired, modulo 2^16. */
  lemma QueueStatusShows(g: Config, head: word, doorbell: word, cs: seq<Cycle>, c: Cycle)
    ensures var start := Start(g, head, doorbell);
      var s := Run(start, cs, g);
      var status := Next(s, c, g).front.status;
      && (Bit(status, 0) <==> s.front.request.valid || s.front.inflight)
      && (Bit(status, 2) <==> !s.front.request.valid && !s.front.inflight && c.head == s.front.tail)
      && (Bit(status, 1) <==> s.front.errorSticky || s.desc.pulse.error)
      && status % 0x1_0000 < 8
      && status / 0x1_0000 == |Retired(start, cs + [c], g)| % 0x1_0000
  {
    hide Start, Run, Retired, Bit;
    var start := Start(g, head, doorbell);
    var s := Run(start, cs, g);
    StartCounts(g, head, doorbell);
    ProcessedCounts(start, cs, g, 0);
    RunSnoc(start, cs, c, g);
    StatusParts(s, c, g, |Retired(start, cs, g)|);
  }

  lemma StartCounts(g: Config, head: word, doorbell: word)
    ensures Start(g, head, doorbell).front.processed == 0
  {
  }

  lemma StatusParts(s: System, c: Cycle, g: Config, n: nat)
    requires s.front.processed == n % W32
    ensures var status := Next(s, c, g).front.status;
      && (Bit(status, 0) <==> s.front.request.valid || s.front.inflight)
      && (Bit(status, 2) <==> !s.front.request.valid && !s.front.inflight && c.head == s.front.tail)
      && (Bit(status, 1) <==> s.front.errorSticky || s.desc.pulse.error)
      && status % 0x1_0000 < 8
      && status / 0x1_0000 == (n + if Retires(s) then 1 else 0) % 0x1_0000
  {
    hide F.Entries, D.Next, N.Next, SlaveNext, Bit;
    var f := s.front;
    var busy := f.request.valid || f.inflight;
    var k := f.processed + if Retires(s) then 1 else 0;
    LowFlags(k % 0x1_0000, if busy then 1 else 0, if f.errorSticky || s.desc.pulse.error then 1 else 0,
             if !busy && c.head == f.tail then 1 else 0);
    HalfOfWord(n, if Retires(s) then 1 else 0);
  }

  lemma HalfOfWord(n: nat, k: nat)
    ensures (n % W32 + k) % 0x1_0000 == (n + k) % 0x1_0000
  {
    var q, r, m := n / W32, n % W32, n % W32 + k;
    assert n + k == (q * 0x1_0000 + m / 0x1_0000) * 0x1_0000 + m % 0x1_0000;
    DivModUnique(n + k, 0x1_0000, q * 0x1_0000 + m / 0x1_0000, m % 0x1_0000);
  }

  // ------------------------------------------------------------------ the last request

  /** What the frontend's request and the fetch engine's registers say of the descriptor under
      way: its slot, its sequence number and its bus address. */
  ghost predicate Tells(s: System, g: Config) {
    var f, d := s.front, s.desc;
    && (f.request.valid ==>
          && f.request.slot == f.tail % F.Entries(g.ringSize) % 0x1_0000 && f.request.sequence == f.processed)
    && (d.ar.valid || d.active || d.pulse.done ==> d.last.sequence == f.processed)
    && (d.ar.valid ==> d.last.status == 1)
    && (d.active || d.pulse.done ==> d.last.araddr == CurrentAddress(s, g))
    && (d.pulse.done ==> d.last.status == if d.pulse.error then 2 else 4)
  }

  lemma TellsStep(s: System, c: Cycle, g: Config, v: View)
    requires Inv(s, g, v) && Tells(s, g)
    ensures Tells(Next(s, c, g), g)
  {
    hide F.Entries, F.StatusWord, SetWord, Burst, N.Next, PayloadHolds, DescOwns, NpuOwns, Reading, SlotAddress;
  }

  /** Over every run the request and fetch registers describe the descriptor under way. */
  lemma {:induction false} RequestTells(s: System, cs: seq<Cycle>, g: Config, v: View)
    requires Inv(s, g, v) && Tells(s, g) && Wired(cs)
    ensures Tells(Run(s, cs, g), g)
    decreases |cs|
  {
    hide Next, Inv, Tells, Serve;
    if cs == [] {
    } else {
      TellsStep(s, cs[0], g, v);
      ServedStep(s, cs[0], g, v);
      RequestTells(Next(s, cs[0], g), cs[1..], g, Serve(s, cs[0], v));
    }
  }

  lemma StartTells(g: Config, head: word, doorbell: word)
    ensures Tells(Start(g, head, doorbell), g)
  {
  }

  /** A beat that is not OKAY shows at once as ERROR; the last beat, if OKAY, as IDLE; any other
      beat leaves the status as it was. */
  lemma BeatShows(s: System, c: Cycle, g: Config)
    requires s.desc.active && s.desc.rready && !s.desc.ar.valid && s.arb.active && s.arb.ownerDesc
    requires s.slave.busy && c.answers
    ensures var status := Next(s, c, g).desc.last.status;
      status == if c.resp != 0 then 2 else if s.slave.beat == s.slave.len then 4 else s.desc.last.status
  {
    hide F.Next, N.Next, SetWord;
  }

  // ------------------------------------------------------------------ the port

  /** Both clients at a free port: the descriptor fetch is served first and the payload engine
      keeps asking.  And a free port that is asked for is never left idle. */
  lemma DescriptorFirst(s: System, c: Cycle, g: Config)
    requires !s.arb.active && c.arready && !s.slave.busy
    ensures var t := Next(s, c, g);
      && (s.desc.ar.valid ==>
            && t.arb.active && t.arb.ownerDesc && t.slave.busy && t.slave.addr == s.desc.ar.addr
            && (s.npu.phase == N.InputAr || s.npu.phase == N.WeightAr ==>
                  t.npu.phase == s.npu.phase && t.npu.ar == s.npu.ar))
      && (!s.desc.ar.valid && s.npu.ar.valid ==>
            t.arb.active && !t.arb.ownerDesc && t.slave.busy && t.slave.addr == s.npu.ar.addr)
  {
    hide F.Next, D.Next;
  }

  // ------------------------------------------------------------------ the payload engine

  /** A dispatch that finds the engine idle latches its request; nothing else changes it. */
  lemma DispatchLatches(s: System, c: Cycle, g: Config)
    ensures var p, q := s.npu, Next(s, c, g).npu;
      && q.job.request == (if p.phase == N.Idle && c.dispatch then c.request else p.job.request)
      && (p.phase == N.Idle ==> (q.phase == N.InputAr <==> c.dispatch))
      && (p.phase == N.Idle && c.dispatch ==> q.job.words == c.shadow)
  {
    hide F.Next, D.Next, SetWord;
  }

  /** A dispatch while a payload is being fetched. */
  predicate Overruns(s: System, c: Cycle) { s.npu.phase != N.Idle && c.dispatch }

  /** A payload beat is taken, the last one of the payload, or one answered with an error. */
  ghost predicate TakesBeat(s: System, c: Cycle) {
    Reading(s.npu) && s.npu.rready && s.arb.active && !s.arb.ownerDesc && s.slave.busy && c.answers
  }

  ghost predicate Completes(s: System, c: Cycle) {
    TakesBeat(s, c) && s.npu.phase == N.WeightR && s.slave.beat == s.slave.len
  }

  ghost predicate BadBeat(s: System, c: Cycle) { TakesBeat(s, c) && c.resp != 0 }

  /** An error is remembered: for good, or until the payload under way completes. */
  predicate Remembered(p: N.Payload) { p.stats.sticky || p.burstError }

  ghost predicate Settled(p: N.Payload) {
    && (p.phase == N.InputAr ==> !p.burstError)
    && (p.phase == N.Idle && p.burstError ==> p.stats.sticky)
  }

  /** Errors, count and completion over one clock of the engine on its own. */
  lemma EngineStep(p: N.Payload, i: N.Inputs)
    requires i.resetn && i.enable && Settled(p) && (p.phase == N.InputR || p.phase == N.WeightR ==> p.rready)
    requires p.phase == N.InputR && i.r.valid && i.r.last ==> p.beat == 1
    requires p.phase == N.WeightR && i.r.valid && i.r.last ==> p.beat == 5
    ensures var q, beat := N.Next(p, i), (p.phase == N.InputR || p.phase == N.WeightR) && i.r.valid;
      var done := p.phase == N.WeightR && i.r.valid && i.r.last;
      && Settled(q) && q.valid == done && q.stats.count == (p.stats.count + if done then 1 else 0) % W32
      && (Remembered(q) <==> Remembered(p) || (p.phase != N.Idle && i.dispatch) || (beat && i.r.resp != 0))
  {
    hide SetWord;
  }

  lemma PayloadStep(s: System, c: Cycle, g: Config, v: View)
    requires Inv(s, g, v) && Settled(s.npu)
    ensures var p, q := s.npu, Next(s, c, g).npu;
      && Settled(q) && (Remembered(q) <==> Remembered(p) || Overruns(s, c) || BadBeat(s, c))
      && q.stats.count == (p.stats.count + if Completes(s, c) then 1 else 0) % W32
      && q.valid == Completes(s, c)
  {
    hide N.Next, F.Next, D.Next, A.Next, SlaveNext, Burst, Handover, DescOwns, DescComplete, PayloadHolds;
    hide Settled, Remembered;
    ReadyWhenReading(s, g, v);
    EngineStep(s.npu, NpuInputs(s, c, g));
  }

  /** The error counter and the status word after one clock of the engine on its own. */
  lemma StatsStep(p: N.Payload, i: N.Inputs)
    requires i.resetn && i.enable && (p.phase == N.WeightR && i.r.valid && i.r.last ==> p.beat == 5)
    ensures var q := N.Next(p, i);
      var done := p.phase == N.WeightR && p.rready && i.r.valid && i.r.last;
      var failed := done && (p.burstError || i.r.resp != 0);
      && q.stats.errors == (p.stats.errors + if (p.phase != N.Idle && i.dispatch) || failed then 1 else 0) % W32
      && q.stats.status == (if done then 4 + (if p.stats.sticky || failed then 2 else 0)
                            else if p.phase != N.Idle || i.dispatch then 1
                            else 4 + if p.stats.sticky then 2 else 0)
  {
    hide SetWord;
  }

  /** The error counter counts cycles with an overrun or a payload that completes with an error;
      the status word is BUSY while a payload is fetched and IDLE otherwise, with ERROR once
      something has gone wrong. */
  lemma PayloadStatus(s: System, c: Cycle, g: Config, v: View)
    requires Inv(s, g, v)
    ensures var p, q := s.npu, Next(s, c, g).npu;
      var failed := Completes(s, c) && (p.burstError || c.resp != 0);
      && q.stats.errors == (p.stats.errors + if Overruns(s, c) || failed then 1 else 0) % W32
      && q.stats.status == (if Completes(s, c) then 4 + (if p.stats.sticky || failed then 2 else 0)
                            else if p.phase != N.Idle || c.dispatch then 1
                            else 4 + if p.stats.sticky then 2 else 0)
  {
    hide N.Next, F.Next, D.Next, A.Next, SlaveNext, Burst, Handover, DescOwns, DescComplete, PayloadHolds;
    StatsStep(s.npu, NpuInputs(s, c, g));
    ReadyWhenReading(s, g, v);
  }

  lemma ReadyWhenReading(s: System, g: Config, v: View)
    requires Inv(s, g, v)
    ensures s.npu.rready <==> Reading(s.npu)
  {
    hide Handover, Ownership, DescComplete, Burst;
  }

  /** The payloads completed in a run. */
  ghost function Completed(s: System, cs: seq<Cycle>, g: Config): nat
    decreases |cs|
  {
    if cs == [] then 0 else (if Completes(s, cs[0]) then 1 else 0) + Completed(Next(s, cs[0], g), cs[1..], g)
  }

  /** Some dispatch of a run came while a payload was being fetched, or some beat was not OKAY. */
  ghost predicate AnyPayloadError(s: System, cs: seq<Cycle>, g: Config)
    decreases |cs|
  {
    cs != [] && (Overruns(s, cs[0]) || BadBeat(s, cs[0]) || AnyPayloadError(Next(s, cs[0], g), cs[1..], g))
  }

  lemma AddModulo(a: nat, b: nat, c: nat)
    ensures ((a + b) % W32 + c) % W32 == (a + (b + c)) % W32
  {
    var n := a + b;
    assert n + c == n / W32 * W32 + (n % W32 + c);
    var m := n % W32 + c;
    assert n + c == (n / W32 + m / W32) * W32 + m % W32;
    DivModUnique(n + c, W32, n / W32 + m / W32, m % W32);
  }

  /** Over every run the payload counter counts the payloads completed, and an error is on
      record exactly if one was before, a dispatch overran, or any beat of any payload was not
      OKAY. */
  lemma {:induction false} PayloadReports(s: System, cs: seq<Cycle>, g: Config, v: View)
    requires Inv(s, g, v) && Settled(s.npu) && Wired(cs)
    ensures var p := Run(s, cs, g).npu;
      && Settled(p) && p.stats.count == (s.npu.stats.count + Completed(s, cs, g)) % W32
      && (Remembered(p) <==> Remembered(s.npu) || AnyPayloadError(s, cs, g))
    decreases |cs|
  {
    hide Next, Inv, Serve, Settled, Remembered, Overruns, BadBeat, Completes;
    if cs == [] {
    } else {
      PayloadStep(s, cs[0], g, v);
      ServedStep(s, cs[0], g, v);
      PayloadReports(Next(s, cs[0], g), cs[1..], g, Serve(s, cs[0], v));
      AddModulo(s.npu.stats.count, if Completes(s, cs[0]) then 1 else 0, Completed(Next(s, cs[0], g), cs[1..], g));
    }
  }

  // ------------------------------------------------------------------ reset and disable

  /** Disabled, the frontend takes the seed as its tail and the doorbell as already seen, forgets
      its request, its count and its error, and says EMPTY iff head equals the seed.  Reset does
      the same with zeros. */
  lemma FrontendRests(s: F.Frontend, i: F.Inputs)
    requires !i.resetn || !i.enable
    ensures var t := F.Next(s, i);
      && !t.request.valid && !t.inflight && t.processed == 0 && !t.errorSticky
      && t.tail == (if i.resetn then i.seed else 0) && t.lastDoorbell == (if i.resetn then i.doorbell else 0)
      && t.status == if !i.resetn || i.head == i.seed then 4 else 0
  {
  }

  /** Disabled or in reset, the fetch engine drops its request and its data. */
  lemma FetchRests(s: D.Fetch, i: D.Inputs)
    requires !i.resetn || !i.enable
    ensures var t := D.Next(s, i);
      && !t.active && !t.ar.valid && !t.rready && t.pulse == D.Pulse(false, false, false)
      && t.beats == 0 && t.data == [0, 0, 0, 0, 0, 0, 0, 0] && t.last.status == 4
      && (i.resetn ==> t.last.araddr == s.last.araddr && t.last.sequence == s.last.sequence)
      && (!i.resetn ==> t.last.araddr == 0 && t.last.sequence == 0)
  {
  }

  /** Disabled or in reset, the payload engine is idle with its counters cleared. */
  lemma PayloadRests(p: N.Payload, i: N.Inputs)
    requires !i.resetn || !i.enable
    ensures var q := N.Next(p, i);
      && q.phase == N.Idle && !q.valid && !q.ar.valid && !q.rready && !q.burstError
      && q.job == N.Job(N.Request(0, 0, 0, 0, 0), [0, 0, 0, 0, 0, 0, 0, 0])
      && q.stats == N.Stats(false, 0, 0, 4)
  {
  }
}
