/** The whole read side on one memory port: frontend, descriptor fetch, payload fetch and
    arbiter, against a memory that answers each burst in order after any stalls and whose
    content may change from every cycle to the next. */
module AxiRead {
  import opened Bits
  import opened AxiTypes
  import A = AxiArbiter
  import D = AxiFetch
  import F = CmdqFrontend
  import N = NpuPayload

  /** The memory's single outstanding burst. */
  datatype Slave = Slave(busy: bool, addr: word, len: nat, beat: nat)

  /** What stays fixed while the queue is enabled. */
  datatype Config = Config(umemBase: word, ringBase: word, ringSize: word, seed: word)

  datatype System = System(front: F.Frontend, desc: D.Fetch, npu: N.Payload, arb: A.Arbiter, slave: Slave)

  /** Everything a cycle's environment is free to choose: queue registers, NPU requests, the
      memory's stalls and responses, and what the memory holds in this cycle. */
  datatype Cycle = Cycle(
    head: word, doorbell: word, dispatch: bool, request: N.Request, shadow: seq<word>,
    arready: bool, answers: bool, resp: nat, mem: Memory)

  /** A compliant memory offers only the next beat of its outstanding burst, and marks the last. */
  function Offer(s: Slave, c: Cycle): ReadData {
    ReadData(s.busy && c.answers, c.mem(BeatAddress(s)), c.resp, s.beat == s.len)
  }

  function BeatAddress(s: Slave): nat { s.addr + 4 * s.beat }

  function SlaveNext(s: Slave, ar: ReadAddress, r: ReadData, rready: bool, arready: bool): Slave {
    if ar.valid && arready then Slave(true, ar.addr, ar.len, 0)
    else if r.valid && rready then
      if r.last then s.(busy := false) else s.(beat := s.beat + 1)
    else s
  }

  function DescInputs(s: System, c: Cycle, g: Config): D.Inputs {
    D.Inputs(true, true, g.umemBase, s.front.request.valid, s.front.request.offset, s.front.request.sequence,
             A.DescReady(s.arb, s.desc.ar, c.arready), A.DescData(s.arb, Offer(s.slave, c)))
  }

  function NpuInputs(s: System, c: Cycle, g: Config): N.Inputs {
    N.Inputs(true, true, g.umemBase, c.dispatch, c.request, c.shadow,
             A.NpuReady(s.arb, s.desc.ar, s.npu.ar, c.arready), A.NpuData(s.arb, Offer(s.slave, c)))
  }

  function FrontInputs(s: System, c: Cycle, g: Config): F.Inputs {
    F.Inputs(true, true, g.ringBase, g.ringSize, c.head, g.seed, c.doorbell,
             s.desc.pulse.ready, s.desc.pulse.done, s.desc.pulse.error)
  }

  /** One clock edge of all five parts. */
  function Next(s: System, c: Cycle, g: Config): System {
    var r := Offer(s.slave, c);
    System(
      F.Next(s.front, FrontInputs(s, c, g)),
      D.Next(s.desc, DescInputs(s, c, g)),
      N.Next(s.npu, NpuInputs(s, c, g)),
      A.Next(s.arb, A.Inputs(true, s.desc.ar, s.npu.ar, s.desc.rready, s.npu.rready, c.arready, r)),
      SlaveNext(s.slave, A.MemoryAddress(s.arb, s.desc.ar, s.npu.ar), r,
                A.MemoryDataReady(s.arb, s.desc.rready, s.npu.rready), c.arready))
  }

  /** Out of reset, with the queue not enabled until now. */
  function Start(g: Config, head: word, doorbell: word): System {
    var off := F.Inputs(true, false, g.ringBase, g.ringSize, head, g.seed, doorbell, false, false, false);
    System(F.Disabled(off), D.Reset(), N.Reset(), A.Reset(), Slave(false, 0, 0, 0))
  }

  // ------------------------------------------------------------------ the invariant

  /** For each kind of burst, the word every address held when it was last delivered. */
  datatype View = View(desc: Memory, input: Memory, weight: Memory)

  /** What memory holds, taken as the view of all three. */
  function Now(mem: Memory): View { View(mem, mem, mem) }

  function Put(m: Memory, a: nat, w: word): Memory { x => if x == a then w else m(x) }

  /** The view after the beat, if any, that memory delivers in this cycle. */
  function Serve(s: System, c: Cycle, v: View): View {
    var a := BeatAddress(s.slave);
    if !s.slave.busy || !c.answers then v
    else if s.arb.ownerDesc then v.(desc := Put(v.desc, a, c.mem(a)))
    else if s.npu.phase == N.InputR then v.(input := Put(v.input, a, c.mem(a)))
    else v.(weight := Put(v.weight, a, c.mem(a)))
  }

  /** The part of the view the burst under way is read into. */
  function Watched(s: System, v: View): Memory {
    if s.arb.ownerDesc then v.desc else if s.npu.phase == N.InputR then v.input else v.weight
  }

  /** The view shows the word delivered in this cycle, if any. */
  predicate Shows(s: System, c: Cycle, v: View) {
    var a := BeatAddress(s.slave);
    s.slave.busy && c.answers ==> Watched(s, v)(a) == c.mem(a)
  }

  function SlotAddress(g: Config, slot: nat): word {
    (g.umemBase + (g.ringBase + 32 * slot) % W32) % W32
  }

  /** The address of the descriptor the frontend is working on. */
  function CurrentAddress(s: System, g: Config): word {
    SlotAddress(g, RingIndex(s.front.tail, F.Entries(g.ringSize)))
  }

  /** The frontend and the fetch engine pass one descriptor at a time between them. */
  ghost predicate Handover(s: System, g: Config) {
    var f, d := s.front, s.desc;
    && !(f.request.valid && f.inflight)
    && (f.request.valid ==> f.request.offset == (g.ringBase + 32 * RingIndex(f.tail, F.Entries(g.ringSize))) % W32)
    && (d.active ==> (f.request.valid && d.pulse.ready) || (f.inflight && !d.pulse.ready))
    && (d.pulse.ready ==> d.active)
    && (d.pulse.done ==> f.inflight && !d.active)
    && (f.inflight ==> d.active || d.pulse.done)
    && (d.ar.valid ==> f.request.valid && !d.active && d.ar.addr == CurrentAddress(s, g) && d.ar.len == D.DESC_LEN)
    && (d.rready ==> d.active)
  }

  /** The fetch engine holds the first beats of its own burst. */
  ghost predicate DescOwns(s: System, g: Config, v: View) {
    && s.desc.rready && s.desc.beats == s.slave.beat <= 7 && s.slave.len == 7
    && s.slave.addr == CurrentAddress(s, g)
    && |s.desc.data| == 8 && s.desc.data[..s.desc.beats] == Burst(v.desc, s.slave.addr, s.desc.beats)
  }

  ghost predicate Reading(p: N.Payload) { p.phase == N.InputR || p.phase == N.WeightR }

  function InputAddress(p: N.Payload, g: Config): word { (g.umemBase + p.job.request.inputOffset) % W32 }
  function WeightAddress(p: N.Payload, g: Config): word { (g.umemBase + p.job.request.weightOffset) % W32 }

  /** The payload engine's request is its own, and finished bursts are held complete. */
  ghost predicate PayloadHolds(p: N.Payload, g: Config, v: View) {
    && |p.job.words| == 8
    && (p.ar.valid <==> p.phase == N.InputAr || p.phase == N.WeightAr)
    && (p.rready <==> Reading(p))
    && (p.phase == N.InputAr ==> p.ar == ReadAddress(InputAddress(p, g), 1, true))
    && (p.phase == N.WeightAr ==> p.ar == ReadAddress(WeightAddress(p, g), 5, true))
    && (p.phase == N.WeightAr || p.phase == N.WeightR ==> p.job.words[..2] == Burst(v.input, InputAddress(p, g), 2))
    && (p.valid ==> p.phase == N.Idle)
    && (p.valid ==> p.job.words == Burst(v.input, InputAddress(p, g), 2) + Burst(v.weight, WeightAddress(p, g), 6))
  }

  ghost predicate NpuOwns(s: System, g: Config, v: View) {
    var p := s.npu;
    && Reading(p) && |p.job.words| == 8 && p.beat == s.slave.beat
    && (p.phase == N.InputR ==>
          && s.slave.len == 1 && p.beat <= 1 && s.slave.addr == InputAddress(p, g)
          && p.job.words[..p.beat] == Burst(v.input, s.slave.addr, p.beat))
    && (p.phase == N.WeightR ==>
          && s.slave.len == 5 && p.beat <= 5 && s.slave.addr == WeightAddress(p, g)
          && p.job.words[2..2 + p.beat] == Burst(v.weight, s.slave.addr, p.beat))
  }

  /** The memory serves exactly the burst of the client the arbiter says owns the port. */
  ghost predicate Ownership(s: System, g: Config, v: View) {
    && (s.slave.busy <==> s.arb.active)
    && (s.desc.active <==> s.arb.active && s.arb.ownerDesc)
    && (Reading(s.npu) <==> s.arb.active && !s.arb.ownerDesc)
    && (s.arb.active && s.arb.ownerDesc ==> DescOwns(s, g, v))
    && (s.arb.active && !s.arb.ownerDesc ==> NpuOwns(s, g, v))
  }

  /** A completed descriptor is the eight words at its own ring slot. */
  ghost predicate DescComplete(s: System, g: Config, v: View) {
    s.desc.pulse.done ==> s.desc.data == Burst(v.desc, CurrentAddress(s, g), 8)
  }

  ghost predicate Inv(s: System, g: Config, v: View) {
    Handover(s, g) && Ownership(s, g, v) && PayloadHolds(s.npu, g, v) && DescComplete(s, g, v)
  }

  // ------------------------------------------------------------------ the invariant is kept

  lemma BurstExtend(mem: Memory, addr: nat, k: nat)
    ensures Burst(mem, addr, k + 1) == Burst(mem, addr, k) + [mem(addr + 4 * k)]
  {
  }

  lemma HandoverKeeps(s: System, c: Cycle, g: Config, v: View)
    requires Handover(s, g) && Ownership(s, g, v)
    ensures Handover(Next(s, c, g), g)
  {
    hide F.Entries, F.StatusWord, D.StatusAfter, SetWord, Burst, DescOwns, NpuOwns, Reading, N.Next, A.Next, SlaveNext;
    var t := Next(s, c, g);
    assert t.front == F.Next(s.front, FrontInputs(s, c, g));
    assert t.desc == D.Next(s.desc, DescInputs(s, c, g));
  }

  /** One more beat of a burst, stored at its own index. */
  lemma StoredBeat(data: seq<word>, from: nat, k: nat, mem: Memory, addr: nat)
    requires from + k < |data| && data[from..from + k] == Burst(mem, addr, k)
    ensures SetWord(data, from + k, mem(addr + 4 * k))[from..from + k + 1] == Burst(mem, addr, k + 1)
  {
    BurstExtend(mem, addr, k);
    var d := SetWord(data, from + k, mem(addr + 4 * k));
    assert d[from..from + k + 1] == data[from..from + k] + [mem(addr + 4 * k)];
  }

  /** A free port hands itself to the client whose address is taken, descriptors first. */
  lemma FreePortSteps(s: System, c: Cycle, g: Config)
    requires !s.arb.active && !s.slave.busy && !s.desc.active && !Reading(s.npu)
    requires s.npu.ar.valid <==> s.npu.phase == N.InputAr || s.npu.phase == N.WeightAr
    ensures var t, desc := Next(s, c, g), s.desc.ar.valid && c.arready;
      var npu := !s.desc.ar.valid && s.npu.ar.valid && c.arready;
      && t.slave == (if desc then Slave(true, s.desc.ar.addr, s.desc.ar.len, 0)
                     else if npu then Slave(true, s.npu.ar.addr, s.npu.ar.len, 0) else s.slave)
      && t.arb.active == (desc || npu) && (t.arb.active ==> t.arb.ownerDesc == desc)
      && t.desc == D.Request(s.desc, DescInputs(s, c, g)) && (t.desc.active <==> desc)
  {
    hide F.Next, N.Next, D.Beat;
  }

  lemma FreePortPayload(s: System, c: Cycle, g: Config)
    requires !s.arb.active && !s.slave.busy && !Reading(s.npu) && |s.npu.job.words| == 8 && |c.shadow| == 8
    requires s.npu.ar.valid <==> s.npu.phase == N.InputAr || s.npu.phase == N.WeightAr
    ensures var p, q := s.npu, Next(s, c, g).npu;
      var taken := !s.desc.ar.valid && p.ar.valid && c.arready;
      && (Reading(q) <==> taken) && |q.job.words| == 8
      && (taken ==> q.beat == 0 && q.job == p.job && q.phase == if p.phase == N.InputAr then N.InputR else N.WeightR)
  {
    hide F.Next, D.Next, N.InputBeat, N.WeightBeat;
  }

  /** The port is free: at most one client's address is taken, and it becomes the owner. */
  lemma FreePortKeeps(s: System, c: Cycle, g: Config, v: View)
    requires Inv(s, g, v) && Shows(s, c, v) && !s.arb.active && |c.shadow| == 8
    ensures Ownership(Next(s, c, g), g, v) && DescComplete(Next(s, c, g), g, v)
  {
    hide F.Entries, F.StatusWord, N.Next, A.Next, SlaveNext, RingIndex;
    var t := Next(s, c, g);
    FreePortSteps(s, c, g);
    FreePortPayload(s, c, g);
    assert Burst(v.desc, t.slave.addr, 0) == Burst(v.input, t.slave.addr, 0) == Burst(v.weight, t.slave.addr, 0) == [];
  }

  /** The descriptor fetch owns the port: its next beat lands in its own data register. */
  lemma DescBeatKeeps(s: System, c: Cycle, g: Config, v: View)
    requires Inv(s, g, v) && Shows(s, c, v) && s.arb.active && s.arb.ownerDesc && |c.shadow| == 8
    ensures Ownership(Next(s, c, g), g, v) && DescComplete(Next(s, c, g), g, v)
  {
    hide F.Entries, N.InputBeat, N.WeightBeat, Burst, SetWord;
    var t, k := Next(s, c, g), s.slave.beat;
    StoredBeat(s.desc.data, 0, k, v.desc, s.slave.addr);
    assert s.desc.data[0..k] == s.desc.data[..k];
    var stored := SetWord(s.desc.data, k, v.desc(s.slave.addr + 4 * k));
    assert stored[0..k + 1] == stored[..k + 1];
    assert k == 7 ==> stored[..8] == stored;
  }

  /** The payload engine owns the port: the descriptor fetch rests, and burst and ownership end
      with the last beat. */
  lemma NpuOwnerSteps(s: System, c: Cycle, g: Config)
    requires s.arb.active && !s.arb.ownerDesc && s.slave.busy && !s.desc.active && s.npu.rready
    ensures var t, last := Next(s, c, g), s.slave.beat == s.slave.len;
      && !t.desc.active && !t.desc.pulse.done
      && t.slave == (if !c.answers then s.slave
                     else if last then s.slave.(busy := false) else s.slave.(beat := s.slave.beat + 1))
      && t.arb.active == !(c.answers && last) && (t.arb.active ==> !t.arb.ownerDesc)
  {
    hide F.Next, N.Next, D.Beat, NpuInputs;
  }

  /** The input words after this cycle of an input burst. */
  lemma InputSteps(s: System, c: Cycle, g: Config)
    requires s.arb.active && !s.arb.ownerDesc && s.slave.busy && s.npu.phase == N.InputR && s.npu.rready
    requires s.npu.beat == s.slave.beat <= 1 && s.slave.len == 1 && |s.npu.job.words| == 8
    ensures var p, q := s.npu, Next(s, c, g).npu;
      && |q.job.words| == 8 && q.job.request == p.job.request && !q.valid
      && (if !c.answers then q.phase == N.InputR && q.beat == p.beat && q.job.words == p.job.words
          else
            && q.job.words == SetWord(p.job.words, p.beat, c.mem(BeatAddress(s.slave)))
            && (if p.beat == 1 then q.phase == N.WeightAr else q.phase == N.InputR && q.beat == 1))
  {
    hide F.Next, D.Next, A.Next, SlaveNext, N.Start, N.WeightBeat;
  }

  lemma InputBeatKeeps(s: System, c: Cycle, g: Config, v: View)
    requires Inv(s, g, v) && Shows(s, c, v) && |c.shadow| == 8
    requires s.arb.active && !s.arb.ownerDesc && s.npu.phase == N.InputR
    ensures Ownership(Next(s, c, g), g, v) && DescComplete(Next(s, c, g), g, v)
  {
    hide F.Entries, Next, CurrentAddress, Burst, SetWord, Handover;
    var k, words := s.slave.beat, s.npu.job.words;
    NpuOwnerSteps(s, c, g);
    InputSteps(s, c, g);
    assert words[0..k] == words[..k];
    StoredBeat(words, 0, k, v.input, s.slave.addr);
    var stored := SetWord(words, k, v.input(s.slave.addr + 4 * k));
    assert stored[0..k + 1] == stored[..k + 1];
  }

  /** The weight words after this cycle of a weight burst. */
  lemma WeightSteps(s: System, c: Cycle, g: Config)
    requires s.arb.active && !s.arb.ownerDesc && s.slave.busy && s.npu.phase == N.WeightR && s.npu.rready
    requires s.npu.beat == s.slave.beat <= 5 && s.slave.len == 5 && |s.npu.job.words| == 8
    ensures var p, q := s.npu, Next(s, c, g).npu;
      && |q.job.words| == 8 && q.job.request == p.job.request
      && (if !c.answers then q.phase == N.WeightR && q.beat == p.beat && q.job.words == p.job.words
          else
            && q.job.words == SetWord(p.job.words, 2 + p.beat, c.mem(BeatAddress(s.slave)))
            && (if p.beat == 5 then q.phase == N.Idle else q.phase == N.WeightR && q.beat == p.beat + 1))
  {
    hide F.Next, D.Next, A.Next, SlaveNext, N.Start, N.InputBeat;
  }

  lemma WeightBeatKeeps(s: System, c: Cycle, g: Config, v: View)
    requires Inv(s, g, v) && Shows(s, c, v) && |c.shadow| == 8
    requires s.arb.active && !s.arb.ownerDesc && s.npu.phase == N.WeightR
    ensures Ownership(Next(s, c, g), g, v) && DescComplete(Next(s, c, g), g, v)
  {
    hide F.Entries, Next, CurrentAddress, Burst, SetWord, Handover;
    NpuOwnerSteps(s, c, g);
    WeightSteps(s, c, g);
    StoredBeat(s.npu.job.words, 2, s.slave.beat, v.weight, s.slave.addr);
  }

  lemma PayloadInput(s: System, c: Cycle, g: Config, v: View)
    requires Inv(s, g, v) && Shows(s, c, v) && |c.shadow| == 8 && s.npu.phase == N.InputR
    ensures PayloadHolds(Next(s, c, g).npu, g, v)
  {
    hide F.Entries, F.Next, D.Next, A.Next, SlaveNext, N.WeightBeat, N.Start;
    hide Burst, SetWord, Handover, DescOwns, DescComplete;
    var p := s.npu;
    if s.slave.beat == 1 {
      StoredBeat(p.job.words, 0, 1, v.input, InputAddress(p, g));
      assert p.job.words[0..1] == p.job.words[..1];
      var stored := SetWord(p.job.words, 1, v.input(InputAddress(p, g) + 4));
      assert stored[0..2] == stored[..2];
    }
  }

  lemma PayloadWeight(s: System, c: Cycle, g: Config, v: View)
    requires Inv(s, g, v) && Shows(s, c, v) && |c.shadow| == 8 && s.npu.phase == N.WeightR
    ensures PayloadHolds(Next(s, c, g).npu, g, v)
  {
    hide F.Entries, F.Next, D.Next, A.Next, SlaveNext, N.InputBeat, N.Start;
    hide Burst, SetWord, Handover, DescOwns, DescComplete;
    var p := s.npu;
    WeightWords(p.job.words, s.slave.beat, v.input, v.weight, InputAddress(p, g), WeightAddress(p, g));
  }

  lemma PayloadKeeps(s: System, c: Cycle, g: Config, v: View)
    requires Inv(s, g, v) && Shows(s, c, v) && |c.shadow| == 8
    ensures PayloadHolds(Next(s, c, g).npu, g, v)
  {
    hide F.Entries, F.Next, D.Next, A.Next, SlaveNext, N.InputBeat, N.WeightBeat;
    hide Burst, SetWord, Handover, DescOwns, DescComplete, NpuOwns;
    if s.npu.phase == N.InputR {
      PayloadInput(s, c, g, v);
    } else if s.npu.phase == N.WeightR {
      PayloadWeight(s, c, g, v);
    }
  }

  lemma WeightWords(words: seq<word>, k: nat, m: Memory, w: Memory, input: nat, weight: nat)
    requires |words| == 8 && k <= 5 && words[..2] == Burst(m, input, 2)
    requires words[2..2 + k] == Burst(w, weight, k)
    ensures var stored := SetWord(words, 2 + k, w(weight + 4 * k));
      && stored[..2] == Burst(m, input, 2)
      && (k == 5 ==> stored == Burst(m, input, 2) + Burst(w, weight, 6))
  {
    StoredBeat(words, 2, k, w, weight);
    var stored := SetWord(words, 2 + k, w(weight + 4 * k));
    assert stored[..2] == words[..2];
    assert k == 5 ==> stored == stored[..2] + stored[2..8];
  }

  lemma StepKeeps(s: System, c: Cycle, g: Config, v: View)
    requires Inv(s, g, v) && Shows(s, c, v) && |c.shadow| == 8
    ensures Inv(Next(s, c, g), g, v)
  {
    hide Next, Handover, PayloadHolds, DescComplete;
    HandoverKeeps(s, c, g, v);
    PayloadKeeps(s, c, g, v);
    if !s.arb.active { FreePortKeeps(s, c, g, v); }
    else if s.arb.ownerDesc { DescBeatKeeps(s, c, g, v); }
    else if s.npu.phase == N.InputR { InputBeatKeeps(s, c, g, v); }
    else { WeightBeatKeeps(s, c, g, v); }
  }

  /** The words already delivered to reads that are not yet finished with. */
  ghost predicate Agree(s: System, g: Config, v: View, w: View) {
    var p := s.npu;
    && (s.desc.active ==> SameBurst(v.desc, w.desc, CurrentAddress(s, g), s.desc.beats))
    && (s.desc.pulse.done ==> SameBurst(v.desc, w.desc, CurrentAddress(s, g), 8))
    && (p.phase == N.InputR ==> SameBurst(v.input, w.input, InputAddress(p, g), p.beat))
    && (p.phase == N.WeightAr || p.phase == N.WeightR || p.valid ==> SameBurst(v.input, w.input, InputAddress(p, g), 2))
    && (p.phase == N.WeightR ==> SameBurst(v.weight, w.weight, WeightAddress(p, g), p.beat))
    && (p.valid ==> SameBurst(v.weight, w.weight, WeightAddress(p, g), 6))
  }

  predicate SameBurst(a: Memory, b: Memory, addr: nat, n: nat) { Burst(a, addr, n) == Burst(b, addr, n) }

  /** The invariant looks at the view only where something has been delivered. */
  lemma InvAgrees(s: System, g: Config, v: View, w: View)
    requires Inv(s, g, v) && Agree(s, g, v, w)
    ensures Inv(s, g, w)
  {
    hide Handover, Burst, CurrentAddress, F.Entries;
  }

  lemma PutAhead(m: Memory, addr: nat, n: nat, k: nat, w: word)
    requires n <= k
    ensures SameBurst(m, Put(m, addr + 4 * k, w), addr, n)
  {
  }

  /** A delivered beat lies ahead of those delivered before it. */
  lemma ServeAgrees(s: System, c: Cycle, g: Config, v: View)
    requires Inv(s, g, v)
    ensures Agree(s, g, v, Serve(s, c, v)) && Shows(s, c, Serve(s, c, v))
  {
    hide Burst, CurrentAddress, F.Entries, PayloadHolds, SameBurst;
    var a, k := s.slave.addr, s.slave.beat;
    SameItself(v, s, g);
    if s.slave.busy {
      PutAhead(v.desc, a, k, k, c.mem(a + 4 * k));
      PutAhead(v.input, a, k, k, c.mem(a + 4 * k));
      PutAhead(v.weight, a, k, k, c.mem(a + 4 * k));
    }
    PayloadRests(s, g, v);
  }

  lemma SameItself(v: View, s: System, g: Config)
    ensures Agree(s, g, v, v)
  {
  }

  lemma PayloadRests(s: System, g: Config, v: View)
    requires Inv(s, g, v)
    ensures s.npu.valid ==> s.npu.phase == N.Idle
  {
  }

  /** One cycle, whatever memory holds in it. */
  lemma ServedStep(s: System, c: Cycle, g: Config, v: View)
    requires Inv(s, g, v) && |c.shadow| == 8
    ensures Inv(Next(s, c, g), g, Serve(s, c, v))
  {
    hide Inv, Next, Agree, Serve, Shows;
    ServeAgrees(s, c, g, v);
    InvAgrees(s, g, v, Serve(s, c, v));
    StepKeeps(s, c, g, Serve(s, c, v));
  }

  // ------------------------------------------------------------------ whole runs

  ghost predicate Wired(cs: seq<Cycle>) {
    forall k | 0 <= k < |cs| :: |cs[k].shadow| == 8
  }

  /** A run; what memory holds may change from every cycle to the next. */
  ghost function Run(s: System, cs: seq<Cycle>, g: Config): System
    decreases |cs|
  {
    if cs == [] then s else Run(Next(s, cs[0], g), cs[1..], g)
  }

  /** The view after a run. */
  ghost function RunView(s: System, cs: seq<Cycle>, g: Config, v: View): View
    decreases |cs|
  {
    if cs == [] then v else RunView(Next(s, cs[0], g), cs[1..], g, Serve(s, cs[0], v))
  }

  predicate Retires(s: System) { s.front.inflight && s.desc.pulse.done }

  /** A descriptor as it is retired, and what memory holds in that cycle. */
  datatype Retirement = Retirement(words: seq<word>, mem: Memory)

  /** The descriptors the frontend retires during a run, in order. */
  ghost function Retired(s: System, cs: seq<Cycle>, g: Config): seq<Retirement>
    decreases |cs|
  {
    if cs == [] then []
    else (if Retires(s) then [Retirement(s.desc.data, cs[0].mem)] else []) + Retired(Next(s, cs[0], g), cs[1..], g)
  }

  /** For each of them, what every address held when it was last delivered to the fetch. */
  ghost function Delivered(s: System, cs: seq<Cycle>, g: Config, v: View): (r: seq<Memory>)
    ensures |r| == |Retired(s, cs, g)|
    decreases |cs|
  {
    if cs == [] then []
    else (if Retires(s) then [v.desc] else []) + Delivered(Next(s, cs[0], g), cs[1..], g, Serve(s, cs[0], v))
  }

  function RingIndex(k: nat, n: nat): nat
    requires n > 0
  {
    k % n
  }

  /** The frontend has retired `n` descriptors since it was enabled. */
  ghost predicate Position(f: F.Frontend, g: Config, n: nat) {
    && f.processed == n % W32
    && RingIndex(f.tail, F.Entries(g.ringSize)) == RingIndex(g.seed + n, F.Entries(g.ringSize))
    && (if n == 0 then f.tail == g.seed else f.tail < F.Entries(g.ringSize))
  }

  lemma StartHolds(g: Config, head: word, doorbell: word, v: View)
    ensures Inv(Start(g, head, doorbell), g, v) && Position(Start(g, head, doorbell).front, g, 0)
  {
  }

  lemma ModSuccessor(a: nat, b: nat, m: nat)
    requires m > 0 && a % m == b % m
    ensures (a + 1) % m == (b + 1) % m
  {
    var p, q, r := a / m, b / m, a % m;
    assert a == p * m + r && b == q * m + r;
    if r + 1 < m {
      DivModUnique(a + 1, m, p, r + 1);
      DivModUnique(b + 1, m, q, r + 1);
    } else {
      assert (p + 1) * m == p * m + m && (q + 1) * m == q * m + m;
      DivModUnique(a + 1, m, p + 1, 0);
      DivModUnique(b + 1, m, q + 1, 0);
    }
  }

  lemma ModIdempotent(a: nat, m: nat)
    requires m > 0
    ensures a % m < m && a % m % m == a % m
  {
    DivModUnique(a % m, m, 0, a % m);
  }

  lemma TailStep(tail: word, position: nat, m: nat)
    requires m > 0 && (tail + 1 < W32 || W32 % m == 0) && RingIndex(tail, m) == RingIndex(position, m)
    ensures var next := (tail + 1) % W32 % m;
      next < m && RingIndex(next, m) == RingIndex(position + 1, m)
  {
    ModSuccessor(tail, position, m);
    ModIdempotent(tail + 1, m);
    if tail + 1 < W32 {
      DivModUnique(tail + 1, W32, 0, tail + 1);
    } else {
      DivModUnique(tail + 1, W32, 1, 0);
    }
  }

  /** Adding one to the tail that software seeded must not wrap around 2^32 in mid-ring. */
  predicate SeedFits(g: Config) { g.seed + 1 < W32 || W32 % F.Entries(g.ringSize) == 0 }

  lemma PositionStep(f: F.Frontend, g: Config, n: nat)
    requires Position(f, g, n) && SeedFits(g)
    ensures var next := (f.tail + 1) % W32 % F.Entries(g.ringSize);
      && next < F.Entries(g.ringSize)
      && RingIndex(next, F.Entries(g.ringSize)) == RingIndex(g.seed + (n + 1), F.Entries(g.ringSize))
    ensures (f.processed + 1) % W32 == (n + 1) % W32
  {
    EntriesSmall(g.ringSize);
    hide F.Entries, RingIndex;
    TailStep(f.tail, g.seed + n, F.Entries(g.ringSize));
    assert g.seed + n + 1 == g.seed + (n + 1);
    ModSuccessor(f.processed, n, W32);
  }

  lemma EntriesSmall(size: word)
    ensures F.Entries(size) <= W32 / 32
  {
  }

  lemma FrontStep(s: System, c: Cycle, g: Config, n: nat)
    requires Position(s.front, g, n) && SeedFits(g)
    ensures Position(Next(s, c, g).front, g, n + if Retires(s) then 1 else 0)
  {
    hide F.Entries, D.Next, N.Next, A.Next, SlaveNext, RingIndex;
    PositionStep(s.front, g, n);
  }

  lemma {:induction false} RunKeeps(s: System, cs: seq<Cycle>, g: Config, v: View)
    requires Inv(s, g, v) && Wired(cs)
    ensures Inv(Run(s, cs, g), g, RunView(s, cs, g, v))
    decreases |cs|
  {
    hide Next, Inv, Serve;
    if cs == [] {
    } else {
      ServedStep(s, cs[0], g, v);
      RunKeeps(Next(s, cs[0], g), cs[1..], g, Serve(s, cs[0], v));
    }
  }

  /** The address of the k-th descriptor after position n. */
  function QueueAddress(g: Config, n: nat): word { SlotAddress(g, RingIndex(g.seed + n, F.Entries(g.ringSize))) }

  /** The descriptor about to be retired is the one of its own ring slot. */
  lemma RetiresOwn(s: System, g: Config, v: View, n: nat)
    requires Inv(s, g, v) && Position(s.front, g, n)
    ensures Retires(s) ==> s.desc.data == Burst(v.desc, QueueAddress(g, n), 8)
  {
    hide Handover, Ownership, PayloadHolds, F.Entries, Burst, RingIndex;
  }

  /** Every retired descriptor is the eight words its ring slot delivered, slots are taken in
      ring order from the seed without gaps or repeats, and the tail shadow and the processed
      count follow the number retired: for every stall pattern, every interleaving with NPU
      payload fetches and every change of memory. */
  lemma {:induction false} RetiresInOrder(s: System, cs: seq<Cycle>, g: Config, v: View, n: nat)
    requires Inv(s, g, v) && Position(s.front, g, n) && Wired(cs) && SeedFits(g)
    ensures var t, log, seen := Run(s, cs, g), Retired(s, cs, g), Delivered(s, cs, g, v);
      && Inv(t, g, RunView(s, cs, g, v)) && Position(t.front, g, n + |log|)
      && forall k | 0 <= k < |log| :: log[k].words == Burst(seen[k], QueueAddress(g, n + k), 8)
    decreases |cs|
  {
    hide Next, Inv, Position, Serve, QueueAddress, Burst, Retires;
    if cs == [] {
    } else {
      ServedStep(s, cs[0], g, v);
      FrontStep(s, cs[0], g, n);
      RetiresOwn(s, g, v, n);
      var x, w, m := Next(s, cs[0], g), Serve(s, cs[0], v), n + if Retires(s) then 1 else 0;
      RetiresInOrder(x, cs[1..], g, w, m);
      var log, rest := Retired(s, cs, g), Retired(x, cs[1..], g);
      var seen, after := Delivered(s, cs, g, v), Delivered(x, cs[1..], g, w);
      forall k | 0 <= k < |log| ensures log[k].words == Burst(seen[k], QueueAddress(g, n + k), 8) {
        var j := if Retires(s) then k - 1 else k;
        if j >= 0 { assert log[k] == rest[j] && seen[k] == after[j] && m + j == n + k; }
      }
    }
  }

  // ------------------------------------------------------------------ memory that keeps what is being read

  /** Between cycles memory may change everywhere, except under the words already delivered to
      a descriptor not yet retired or to a payload not yet handed over. */
  ghost predicate Stable(s: System, cs: seq<Cycle>, g: Config, mem: Memory)
    decreases |cs|
  {
    cs == [] || (Agree(s, g, Now(mem), Now(cs[0].mem)) && Stable(Next(s, cs[0], g), cs[1..], g, cs[0].mem))
  }

  lemma CurrentStep(s: System, c: Cycle, g: Config, mem: Memory)
    requires Inv(s, g, Now(mem)) && Agree(s, g, Now(mem), Now(c.mem)) && |c.shadow| == 8
    ensures Inv(s, g, Now(c.mem)) && Inv(Next(s, c, g), g, Now(c.mem))
  {
    hide Inv, Next, Agree;
    InvAgrees(s, g, Now(mem), Now(c.mem));
    StepKeeps(s, c, g, Now(c.mem));
  }

  /** The retired words are those memory holds at this address in the cycle of retirement. */
  ghost predicate HeldAt(r: Retirement, addr: word) { r.words == Burst(r.mem, addr, 8) }

  lemma RetiresHeld(s: System, g: Config, mem: Memory, n: nat)
    requires Inv(s, g, Now(mem)) && Position(s.front, g, n)
    ensures Retires(s) ==> HeldAt(Retirement(s.desc.data, mem), QueueAddress(g, n))
  {
    hide Inv, Position, QueueAddress, Burst, Retires;
    RetiresOwn(s, g, Now(mem), n);
  }

  /** Then every retired descriptor is what its ring slot holds in the cycle it is retired: a
      slot that is refilled delivers its new descriptor. */
  lemma {:induction false} RetiresCurrent(s: System, cs: seq<Cycle>, g: Config, mem: Memory, n: nat)
    requires Inv(s, g, Now(mem)) && Position(s.front, g, n) && Wired(cs) && SeedFits(g) && Stable(s, cs, g, mem)
    ensures var log := Retired(s, cs, g);
      forall k | 0 <= k < |log| :: HeldAt(log[k], QueueAddress(g, n + k))
    decreases |cs|
  {
    hide Next, Inv, Position, QueueAddress, Burst, Retires, Agree, HeldAt;
    if cs == [] {
    } else {
      CurrentStep(s, cs[0], g, mem);
      FrontStep(s, cs[0], g, n);
      RetiresHeld(s, g, cs[0].mem, n);
      var x, m := Next(s, cs[0], g), n + if Retires(s) then 1 else 0;
      RetiresCurrent(x, cs[1..], g, cs[0].mem, m);
      var log, rest := Retired(s, cs, g), Retired(x, cs[1..], g);
      forall k | 0 <= k < |log| ensures HeldAt(log[k], QueueAddress(g, n + k)) {
        var j := if Retires(s) then k - 1 else k;
        if j < 0 {
          assert log[k] == Retirement(s.desc.data, cs[0].mem);
        } else {
          assert HeldAt(Retired(x, cs[1..], g)[j], QueueAddress(g, m + j));
          assert log[k] == rest[j] && m + j == n + k;
        }
      }
    }
  }

  function ReadFrom(p: N.Payload, g: Config): word {
    if p.phase == N.InputR then InputAddress(p, g) else WeightAddress(p, g)
  }

  function PayloadWords(p: N.Payload, g: Config, v: View): seq<word> {
    Burst(v.input, InputAddress(p, g), 2) + Burst(v.weight, WeightAddress(p, g), 6)
  }

  /** What each client sees of the shared port in state `s`: never two bursts outstanding,
      beats only to the client whose burst it is and only while it is ready for them, each
      beat the word memory then holds at that client's own address, and complete payloads and
      descriptors equal to the view at their own addresses, as with a private memory. */
  ghost predicate Transparent(s: System, c: Cycle, g: Config, v: View) {
    var r := Offer(s.slave, c);
    var toDesc, toNpu := A.DescData(s.arb, r), A.NpuData(s.arb, r);
    && (A.MemoryAddress(s.arb, s.desc.ar, s.npu.ar).valid ==> !s.slave.busy)
    && !(toDesc.valid && toNpu.valid)
    && (toDesc.valid ==> s.desc.rready && toDesc.data == c.mem(CurrentAddress(s, g) + 4 * s.desc.beats))
    && (toNpu.valid ==> s.npu.rready && Reading(s.npu) && toNpu.data == c.mem(ReadFrom(s.npu, g) + 4 * s.npu.beat))
    && (s.npu.valid ==> s.npu.job.words == PayloadWords(s.npu, g, v))
    && (s.desc.pulse.done ==> s.desc.data == Burst(v.desc, CurrentAddress(s, g), 8))
    && !(s.front.request.valid && s.front.inflight)
  }

  lemma InvTransparent(s: System, c: Cycle, g: Config, v: View)
    requires Inv(s, g, v)
    ensures Transparent(s, c, g, v)
  {
    hide F.Entries, Burst, CurrentAddress;
  }

  /** After every run, with complete words as they were delivered. */
  lemma ArbiterTransparency(g: Config, head: word, doorbell: word, cs: seq<Cycle>, c: Cycle, v: View)
    requires Wired(cs)
    ensures var s := Start(g, head, doorbell);
      Transparent(Run(s, cs, g), c, g, RunView(s, cs, g, v))
  {
    hide Inv, Transparent, Start;
    var s := Start(g, head, doorbell);
    StartHolds(g, head, doorbell, v);
    RunKeeps(s, cs, g, v);
    InvTransparent(Run(s, cs, g), c, g, RunView(s, cs, g, v));
  }

  /** In every cycle of a run, with complete words as memory holds them in that cycle. */
  ghost predicate TransparentNow(s: System, cs: seq<Cycle>, g: Config)
    decreases |cs|
  {
    cs == [] || (Transparent(s, cs[0], g, Now(cs[0].mem)) && TransparentNow(Next(s, cs[0], g), cs[1..], g))
  }

  lemma {:induction false} RunTransparentNow(s: System, cs: seq<Cycle>, g: Config, mem: Memory)
    requires Inv(s, g, Now(mem)) && Wired(cs) && Stable(s, cs, g, mem)
    ensures TransparentNow(s, cs, g)
    decreases |cs|
  {
    hide Next, Inv, Transparent, Agree;
    if cs == [] {
    } else {
      CurrentStep(s, cs[0], g, mem);
      InvTransparent(s, cs[0], g, Now(cs[0].mem));
      RunTransparentNow(Next(s, cs[0], g), cs[1..], g, cs[0].mem);
    }
  }

  /** A memory that keeps what is being read looks private to both clients. */
  lemma CurrentTransparency(g: Config, head: word, doorbell: word, cs: seq<Cycle>, mem: Memory)
    requires Wired(cs) && Stable(Start(g, head, doorbell), cs, g, mem)
    ensures TransparentNow(Start(g, head, doorbell), cs, g)
  {
    hide Inv, TransparentNow, Start, Stable;
    StartHolds(g, head, doorbell, Now(mem));
    RunTransparentNow(Start(g, head, doorbell), cs, g, mem);
  }

  // ------------------------------------------------------------------ the error flag

  /** In this cycle the descriptor fetch takes the last beat of its burst. */
  predicate LastBeat(s: System, c: Cycle) {
    s.desc.active && s.desc.rready && s.arb.active && s.arb.ownerDesc && s.slave.busy
    && c.answers && s.slave.beat == s.slave.len
  }

  /** The responses of the last beats of the descriptor bursts of a run, in order. */
  ghost function LastResponses(s: System, cs: seq<Cycle>, g: Config): seq<nat>
    decreases |cs|
  {
    if cs == [] then []
    else (if LastBeat(s, cs[0]) then [cs[0].resp] else []) + LastResponses(Next(s, cs[0], g), cs[1..], g)
  }

  /** The error has been recorded, or will be when the finished fetch is retired. */
  predicate Flagged(s: System) { s.front.errorSticky || (s.desc.pulse.done && s.desc.pulse.error) }

  lemma FlagStep(s: System, c: Cycle, g: Config, v: View)
    requires Inv(s, g, v)
    ensures Flagged(Next(s, c, g)) <==> Flagged(s) || (LastBeat(s, c) && c.resp != RESP_OKAY)
  {
    hide F.Entries, F.StatusWord, Burst, SetWord, N.Next, CurrentAddress;
  }

  ghost predicate AnyBad(resps: seq<nat>) { exists k :: 0 <= k < |resps| && resps[k] != RESP_OKAY }

  /** Over every run: the sticky error flag ends set, now or with the retirement under way,
      exactly when it was set before or the last beat of some descriptor burst was not OKAY.
      The responses of the other seven beats never matter. */
  lemma {:induction false} ErrorShowsLastBeats(s: System, cs: seq<Cycle>, g: Config, v: View)
    requires Inv(s, g, v) && Wired(cs)
    ensures Flagged(Run(s, cs, g)) <==> Flagged(s) || AnyBad(LastResponses(s, cs, g))
    decreases |cs|
  {
    hide Inv, Next, LastBeat, Flagged, Serve;
    if cs == [] {
    } else {
      var t := Next(s, cs[0], g);
      ServedStep(s, cs[0], g, v);
      FlagStep(s, cs[0], g, v);
      ErrorShowsLastBeats(t, cs[1..], g, Serve(s, cs[0], v));
      var first, rest := if LastBeat(s, cs[0]) then [cs[0].resp] else [], LastResponses(t, cs[1..], g);
      BadInJoin(first, rest);
      assert AnyBad(first) <==> LastBeat(s, cs[0]) && cs[0].resp != RESP_OKAY by {
        if first != [] { assert first[0] == cs[0].resp; }
      }
    }
  }

  lemma BadInJoin(a: seq<nat>, b: seq<nat>)
    ensures AnyBad(a + b) <==> AnyBad(a) || AnyBad(b)
  {
    if AnyBad(a) {
      var k :| 0 <= k < |a| && a[k] != RESP_OKAY;
      assert (a + b)[k] == a[k];
    }
    if AnyBad(b) {
      var k :| 0 <= k < |b| && b[k] != RESP_OKAY;
      assert (a + b)[|a| + k] == b[k];
    }
  }

  // ------------------------------------------------------------------ a run to the first retirement

  /** What software and memory hold in the cycles of such a run. */
  datatype Held = Held(head: word, bell: word, mem: Memory)

  /** A cycle in which software has rung, and memory accepts and answers with this response. */
  function Ring(h: Held, resp: nat): Cycle {
    Cycle(h.head, h.bell, false, N.NO_REQUEST, Blank(), true, true, resp, h.mem)
  }

  function Beats(h: Held, resps: seq<nat>): (cs: seq<Cycle>)
    ensures |cs| == |resps| && Wired(cs)
  {
    seq(|resps|, k requires 0 <= k < |resps| => Ring(h, resps[k]))
  }

  /** The frontend has not retired anything and still counts from the seed. */
  predicate Fresh(s: System, g: Config) {
    s.front.tail == g.seed && s.front.processed == 0 && !s.front.errorSticky && s.npu == N.Reset()
  }

  /** The descriptor burst under way, k beats taken. */
  predicate Beating(s: System, g: Config, k: nat) {
    && Fresh(s, g) && k <= 7
    && s.desc.active && s.desc.rready && !s.desc.ar.valid && !s.desc.pulse.done && s.desc.beats == k
    && s.arb == A.Arbiter(true, true) && s.slave.busy && s.slave.len == 7 && s.slave.beat == k
    && !s.front.inflight == s.desc.pulse.ready == s.front.request.valid
  }

  /** The burst has just ended with this response, and is about to be retired. */
  predicate BurstDone(s: System, g: Config, resp: nat) {
    && Fresh(s, g) && s.front.inflight && s.desc.pulse.done && s.desc.pulse.error == (resp != RESP_OKAY)
    && s.desc.last.status == if resp == RESP_OKAY then STATUS_IDLE else STATUS_ERROR
  }

  /** The frontend requests its first descriptor; the fetch engine has not seen the request. */
  predicate Requested(s: System, g: Config) {
    && Fresh(s, g) && s.front.request.valid && !s.front.inflight && !s.arb.active && !s.slave.busy
    && !s.desc.active && !s.desc.ar.valid && !s.desc.rready && s.desc.pulse == D.QUIET
  }

  /** The fetch engine presents the address of the burst. */
  predicate Presented(s: System, g: Config) {
    && Fresh(s, g) && s.front.request.valid && !s.front.inflight && !s.arb.active && !s.slave.busy
    && !s.desc.active && s.desc.ar.valid && s.desc.ar.len == 7 && s.desc.beats == 0 && s.desc.pulse == D.QUIET
  }

  lemma StartRequests(g: Config, head: word, doorbell: word, h: Held)
    requires h.head != g.seed && h.bell != doorbell
    ensures var s := Start(g, head, doorbell);
      !s.desc.pulse.done && Requested(Next(s, Ring(h, 0), g), g)
  {
    hide F.Entries, F.StatusWord, Burst, SetWord;
  }

  lemma RequestPresents(s: System, g: Config, h: Held)
    requires Requested(s, g)
    ensures Presented(Next(s, Ring(h, 0), g), g)
  {
    hide F.Entries, F.StatusWord, F.TailRequest, Burst, SetWord;
  }

  lemma PresentedStarts(s: System, g: Config, h: Held)
    requires Presented(s, g)
    ensures Beating(Next(s, Ring(h, 0), g), g, 0)
  {
    hide F.Entries, F.StatusWord, F.TailRequest, Burst, SetWord;
  }

  /** Request, address and handshake. */
  lemma BurstStarts(g: Config, head: word, doorbell: word, h: Held)
    requires h.head != g.seed && h.bell != doorbell
    ensures var s := Start(g, head, doorbell);
      var s1 := Next(s, Ring(h, 0), g);
      var s2 := Next(s1, Ring(h, 0), g);
      && !s.desc.pulse.done && !s1.desc.pulse.done && !s2.desc.pulse.done
      && Beating(Next(s2, Ring(h, 0), g), g, 0)
  {
    hide Next, Ring, Start, Beating, Fresh;
    var s1 := Next(Start(g, head, doorbell), Ring(h, 0), g);
    StartRequests(g, head, doorbell, h);
    RequestPresents(s1, g, h);
    PresentedStarts(Next(s1, Ring(h, 0), g), g, h);
  }

  lemma BeatTaken(s: System, g: Config, h: Held, resp: nat, k: nat)
    requires Beating(s, g, k)
    ensures var t := Next(s, Ring(h, resp), g);
      if k < 7 then Beating(t, g, k + 1) else BurstDone(t, g, resp)
  {
    hide F.Entries, F.StatusWord, F.TailRequest, Burst, SetWord;
  }

  lemma {:induction false} BeatsTaken(s: System, g: Config, h: Held, resps: seq<nat>, k: nat)
    requires k <= 7 && Beating(s, g, k) && |resps| == 8 - k
    ensures BurstDone(Run(s, Beats(h, resps), g), g, resps[7 - k])
    ensures Retired(s, Beats(h, resps), g) == []
    decreases |resps|
  {
    hide Next, Beating, BurstDone, Ring;
    assert !s.desc.pulse.done by { StillBeating(s, g, k); }
    BeatTaken(s, g, h, resps[0], k);
    var t, rest := Next(s, Ring(h, resps[0]), g), Beats(h, resps[1..]);
    assert Beats(h, resps)[1..] == rest;
    if k < 7 {
      BeatsTaken(t, g, h, resps[1..], k + 1);
    } else {
      assert rest == [];
    }
  }

  lemma StillBeating(s: System, g: Config, k: nat)
    requires Beating(s, g, k)
    ensures !s.desc.pulse.done
  {
  }

  /** Three cycles to the address handshake and eight beats with these responses. */
  function FirstBurst(h: Held, resps: seq<nat>): (cs: seq<Cycle>)
    ensures Wired(cs)
  {
    [Ring(h, 0)] + ([Ring(h, 0)] + ([Ring(h, 0)] + Beats(h, resps)))
  }

  lemma RunCons(s: System, c: Cycle, cs: seq<Cycle>, g: Config)
    ensures Run(s, [c] + cs, g) == Run(Next(s, c, g), cs, g)
    ensures !s.desc.pulse.done ==> Retired(s, [c] + cs, g) == Retired(Next(s, c, g), cs, g)
  {
    hide Next;
    assert ([c] + cs)[1..] == cs;
  }

  lemma FirstBurstDone(g: Config, head: word, doorbell: word, h: Held, resps: seq<nat>)
    requires h.head != g.seed && h.bell != doorbell && |resps| == 8
    ensures BurstDone(Run(Start(g, head, doorbell), FirstBurst(h, resps), g), g, resps[7])
    ensures Retired(Start(g, head, doorbell), FirstBurst(h, resps), g) == []
  {
    hide Next, Beating, BurstDone, Ring, Start;
    BurstStarts(g, head, doorbell, h);
    var c, beats := Ring(h, 0), Beats(h, resps);
    var s := Start(g, head, doorbell);
    var s1 := Next(s, c, g);
    var s2 := Next(s1, c, g);
    RunCons(s, c, [c] + ([c] + beats), g);
    RunCons(s1, c, [c] + beats, g);
    RunCons(s2, c, beats, g);
    BeatsTaken(Next(s2, c, g), g, h, resps, 0);
  }

  lemma {:induction false} RunSnoc(s: System, cs: seq<Cycle>, c: Cycle, g: Config)
    ensures Run(s, cs + [c], g) == Next(Run(s, cs, g), c, g)
    ensures var t := Run(s, cs, g);
      Retired(s, cs + [c], g)
        == Retired(s, cs, g) + if Retires(t) then [Retirement(t.desc.data, c.mem)] else []
    decreases |cs|
  {
    hide Next;
    if cs == [] {
      assert [] + [c] == [c] && [c][1..] == [];
    } else {
      assert (cs + [c])[1..] == cs[1..] + [c];
      RunSnoc(Next(s, cs[0], g), cs[1..], c, g);
    }
  }

  /** A burst of eight beats, the first seven answered with any errors at all: once it is
      retired no flag, pulse or status shows them. */
  lemma EarlierErrorsLost(g: Config, head: word, doorbell: word, h: Held, resps: seq<nat>)
    requires h.head != g.seed && h.bell != doorbell && |resps| == 8 && resps[7] == RESP_OKAY
    ensures var t := Run(Start(g, head, doorbell), FirstBurst(h, resps) + [Ring(h, RESP_OKAY)], g);
      && t.front.processed == 1 && !t.front.errorSticky && !t.desc.pulse.error && t.desc.last.status == STATUS_IDLE
  {
    hide Run, FirstBurst, Ring, F.Entries, F.StatusWord, Burst, SetWord, N.Next, A.Next, SlaveNext;
    FirstBurstDone(g, head, doorbell, h, resps);
    FirstBurstKeeps(g, head, doorbell, h, resps);
    RunSnoc(Start(g, head, doorbell), FirstBurst(h, resps), Ring(h, RESP_OKAY), g);
  }

  lemma FirstBurstKeeps(g: Config, head: word, doorbell: word, h: Held, resps: seq<nat>)
    ensures exists v: View :: Inv(Run(Start(g, head, doorbell), FirstBurst(h, resps), g), g, v)
  {
    hide Inv, FirstBurst, Start;
    var v := Now(h.mem);
    StartHolds(g, head, doorbell, v);
    RunKeeps(Start(g, head, doorbell), FirstBurst(h, resps), g, v);
  }

  // ------------------------------------------------------------------ doorbells

  /** A descriptor is requested or being fetched. */
  function Busy(s: System): nat { if s.front.request.valid || s.front.inflight then 1 else 0 }

  predicate Changes(s: System, c: Cycle) { c.doorbell != s.front.lastDoorbell }

  /** In this cycle the doorbell changes while the frontend is idle and the queue is not empty. */
  predicate Answered(s: System, c: Cycle) { Changes(s, c) && Busy(s) == 0 && c.head != s.front.tail }

  /** The cycles of a run in which the doorbell changes, and those among them that count. */
  ghost function DoorbellChanges(s: System, cs: seq<Cycle>, g: Config): nat
    decreases |cs|
  {
    if cs == [] then 0
    else (if Changes(s, cs[0]) then 1 else 0) + DoorbellChanges(Next(s, cs[0], g), cs[1..], g)
  }

  ghost function AnsweredChanges(s: System, cs: seq<Cycle>, g: Config): nat
    decreases |cs|
  {
    if cs == [] then 0
    else (if Answered(s, cs[0]) then 1 else 0) + AnsweredChanges(Next(s, cs[0], g), cs[1..], g)
  }

  lemma DoorbellStep(s: System, c: Cycle, g: Config, v: View)
    requires Inv(s, g, v)
    ensures var t := Next(s, c, g);
      && t.front.lastDoorbell == c.doorbell
      && Busy(t) + (if Retires(s) then 1 else 0)
         == Busy(s) + (if Answered(s, c) then 1 else 0)
  {
    hide F.Entries, F.StatusWord, D.Next, N.Next, A.Next, SlaveNext, Burst, CurrentAddress;
  }

  /** Over every run: one descriptor is fetched for each doorbell change that finds the
      frontend idle and the queue not empty, and none for any other change. */
  lemma {:induction false} OneFetchPerDoorbell(s: System, cs: seq<Cycle>, g: Config, v: View)
    requires Inv(s, g, v) && Wired(cs)
    ensures |Retired(s, cs, g)| + Busy(Run(s, cs, g)) == Busy(s) + AnsweredChanges(s, cs, g)
    ensures AnsweredChanges(s, cs, g) <= DoorbellChanges(s, cs, g)
    decreases |cs|
  {
    hide Inv, Next, Busy, Answered, Serve, Retires;
    if cs == [] {
    } else {
      ServedStep(s, cs[0], g, v);
      DoorbellStep(s, cs[0], g, v);
      OneFetchPerDoorbell(Next(s, cs[0], g), cs[1..], g, Serve(s, cs[0], v));
      assert Answered(s, cs[0]) ==> Changes(s, cs[0]) by { AnsweredChanged(s, cs[0]); }
    }
  }

  lemma AnsweredChanged(s: System, c: Cycle)
    ensures Answered(s, c) ==> Changes(s, c)
  {
  }

  lemma {:induction false} SteadyDoorbell(s: System, cs: seq<Cycle>, g: Config, v: View)
    requires Inv(s, g, v) && Wired(cs)
    requires forall k | 0 <= k < |cs| :: cs[k].doorbell == s.front.lastDoorbell
    ensures DoorbellChanges(s, cs, g) == 0
    decreases |cs|
  {
    hide Inv, Next, Busy, Answered, Serve, Retires;
    if cs == [] {
    } else {
      ServedStep(s, cs[0], g, v);
      DoorbellStep(s, cs[0], g, v);
      SteadyDoorbell(Next(s, cs[0], g), cs[1..], g, Serve(s, cs[0], v));
    }
  }

  /** A lost change: software rings, and rings again in the next cycle while the first fetch is
      under way.  However many descriptors wait and however long it runs, only one is fetched. */
  lemma LostDoorbell(g: Config, head: word, doorbell: word, h: Held, c: Cycle, cs: seq<Cycle>)
    requires h.head != g.seed && h.bell != doorbell && c.doorbell != h.bell && |c.shadow| == 8 && Wired(cs)
    requires forall k | 0 <= k < |cs| :: cs[k].doorbell == c.doorbell
    ensures var s, all := Start(g, head, doorbell), [Ring(h, 0)] + ([c] + cs);
      && DoorbellChanges(s, all, g) == 2
      && |Retired(s, all, g)| + Busy(Run(s, all, g)) == 1
  {
    hide Inv, Next, Answered, Busy, Start, Serve;
    var s, first, v := Start(g, head, doorbell), Ring(h, 0), Now(h.mem);
    var s1, v1 := Next(s, first, g), Serve(s, first, v);
    var s2, v2 := Next(s1, c, g), Serve(s1, c, v1);
    StartHolds(g, head, doorbell, v);
    StartIdle(g, head, doorbell, h);
    ServedStep(s, first, g, v);
    DoorbellStep(s, first, g, v);
    ServedStep(s1, c, g, v1);
    DoorbellStep(s1, c, g, v1);
    BusyUnanswered(s1, c);
    SteadyDoorbell(s2, cs, g, v2);
    OneFetchPerDoorbell(s2, cs, g, v2);
    assert ([first] + ([c] + cs))[1..] == [c] + cs && ([c] + cs)[1..] == cs;
  }

  lemma StartIdle(g: Config, head: word, doorbell: word, h: Held)
    requires h.head != g.seed && h.bell != doorbell
    ensures var s, c := Start(g, head, doorbell), Ring(h, 0);
      && Busy(s) == 0 && Changes(s, c) && Answered(s, c) && !Retires(s) && !Retires(Next(s, c, g))
  {
    hide F.Entries, F.StatusWord, Burst, SetWord;
  }

  lemma BusyUnanswered(s: System, c: Cycle)
    ensures Busy(s) == 1 ==> !Answered(s, c)
  {
  }

  // ------------------------------------------------------------------ the tail seed

  /** The first retirement moves the tail shadow to seed + 1 modulo n exactly when adding one
      to the seed does not wrap in mid-ring. */
  lemma FirstRetirement(s: System, c: Cycle, g: Config)
    requires Position(s.front, g, 0) && Retires(s)
    ensures Position(Next(s, c, g).front, g, 1) <==> SeedFits(g)
  {
    hide F.Entries, D.Next, N.Next, A.Next, SlaveNext, F.StatusWord;
    EntriesSmall(g.ringSize);
    SeedWraps(g);
  }

  lemma SeedWraps(g: Config)
    ensures var n := F.Entries(g.ringSize);
      (g.seed + 1) % W32 % n < n && (RingIndex((g.seed + 1) % W32 % n, n) == RingIndex(g.seed + 1, n) <==> SeedFits(g))
  {
    hide F.Entries;
    var n := F.Entries(g.ringSize);
    ModIdempotent((g.seed + 1) % W32, n);
    if g.seed + 1 < W32 {
      DivModUnique(g.seed + 1, W32, 0, g.seed + 1);
    } else {
      DivModUnique(g.seed + 1, W32, 1, 0);
      DivModUnique(0, n, 0, 0);
    }
  }

  /** So over all runs from an enabled queue the tail shadow and the processed count follow the
      descriptors retired if and only if the seed is no such value. */
  lemma TailFollowsSeed(g: Config, head: word, doorbell: word)
    ensures (forall cs | Wired(cs) :: Follows(g, head, doorbell, cs)) <==> SeedFits(g)
  {
    hide SeedFits, Inv, Start, Position, FirstBurst, Run, Retired, Next, Ring, QueueAddress;
    var v := Now(Zeros());
    StartHolds(g, head, doorbell, v);
    if SeedFits(g) {
      forall cs | Wired(cs) ensures Follows(g, head, doorbell, cs) {
        RetiresInOrder(Start(g, head, doorbell), cs, g, v, 0);
      }
    } else {
      var h := Held(Another(g.seed), Another(doorbell), Zeros());
      var cs, c := FirstBurst(h, [0, 0, 0, 0, 0, 0, 0, 0]), Ring(h, 0);
      var t := Run(Start(g, head, doorbell), cs, g);
      FirstBurstDone(g, head, doorbell, h, [0, 0, 0, 0, 0, 0, 0, 0]);
      RunSnoc(Start(g, head, doorbell), cs, c, g);
      assert Follows(g, head, doorbell, cs) ==> !Follows(g, head, doorbell, cs + [c]) by {
        if Position(t.front, g, 0) { FirstRetirement(t, c, g); }
      }
      assert Wired(cs + [c]) by { RingWired(h); }
    }
  }

  function Zeros(): Memory { _ => 0 }

  function Another(w: word): (r: word)
    ensures r != w
  {
    if w == 0 then 1 else 0
  }

  lemma RingWired(h: Held)
    ensures |Ring(h, 0).shadow| == 8
  {
  }

  ghost predicate Follows(g: Config, head: word, doorbell: word, cs: seq<Cycle>) {
    var s := Start(g, head, doorbell);
    Position(Run(s, cs, g).front, g, |Retired(s, cs, g)|)
  }
}
