/** The NPU result store engine: one address, six data beats and one response per store. */
module ResultStore {
  import opened Bits

  datatype Phase = Idle | Aw | W | B

  datatype WriteAddress = WriteAddress(addr: word, len: nat, valid: bool)
  datatype WriteData = WriteData(data: word, last: bool, valid: bool)
  datatype Stats = Stats(sticky: bool, count: word, errors: word, status: word)

  /** What software reads back of the last store. */
  datatype Last = Last(offset: word, awaddr: word, classId: byte)

  /** `words` are the latched status word, logits, class word and hidden values. */
  datatype Store = Store(
    phase: Phase, beat: nat, words: seq<word>, aw: WriteAddress, w: WriteData, bready: bool, stats: Stats,
    last: Last)

  const LEN: nat := 5

  const NO_STATS := Stats(false, 0, 0, 4)
  const NO_LAST := Last(0, 0, 0)

  function Blank(): seq<word> { [0, 0, 0, 0, 0, 0] }

  function Reset(): Store {
    Store(Idle, 0, Blank(), WriteAddress(0, 0, false), WriteData(0, false, false), false, NO_STATS,
          NO_LAST)
  }

  datatype Inputs = Inputs(
    resetn: bool, enable: bool, request: bool, base: word, offset: word,
    statusWord: word, logit0: word, logit1: word, classId: byte, hidden0: word, hidden1: word,
    awready: bool, wready: bool, bvalid: bool, bresp: nat)

  function Payload(i: Inputs): seq<word> {
    [i.statusWord, i.logit0, i.logit1, i.classId, i.hidden0, i.hidden1]
  }

  function Target(i: Inputs): word { (i.base + i.offset) % W32 }

  function SelectWord(words: seq<word>, beat: nat): word
    requires |words| == 6
  {
    if beat <= 4 then words[beat] else words[5]
  }

  function Increment(w: word): word { (w + 1) % W32 }

  function Failed(t: Stats): Stats { t.(sticky := true, errors := Increment(t.errors)) }

  /** Count, class, and the flags idle, error and busy, from the registers before the edge. */
  function StatusWord(s: Store): word {
    s.stats.count % 0x1_0000 * 0x1_0000 + s.last.classId * 0x100
    + (if s.phase == Idle then 4 else 1) + if s.stats.sticky then 2 else 0
  }

  function Next(s: Store, i: Inputs): (r: Store)
    requires |s.words| == 6
    ensures |r.words| == 6
  {
    if !i.resetn || !i.enable then Reset()
    else
      var q := s.(stats := s.stats.(status := StatusWord(s)));
      var a := if i.request && s.phase != Idle then q.(stats := Failed(q.stats)) else q;
      match s.phase
      case Idle => Accept(a, i)
      case Aw =>
        if s.aw.valid && i.awready then
          a.(aw := a.aw.(valid := false), w := WriteData(s.words[0], false, true), beat := 0, phase := W)
        else a
      case W => if s.w.valid && i.wready then NextBeat(a) else a
      case B =>
        if i.bvalid && s.bready then
          a.(bready := false, phase := Idle, stats := if i.bresp != 0 then Failed(q.stats) else a.stats)
        else a
  }

  function Accept(a: Store, i: Inputs): Store {
    var q := a.(aw := a.aw.(valid := false), w := a.w.(valid := false, last := false), bready := false, beat := 0);
    if i.request then
      q.(words := Payload(i), last := Last(i.offset, Target(i), i.classId), aw := WriteAddress(Target(i), LEN, true),
         stats := q.stats.(count := Increment(q.stats.count)), phase := Aw)
    else q
  }

  function NextBeat(a: Store): Store
    requires |a.words| == 6
  {
    if a.beat == LEN then a.(w := a.w.(valid := false, last := false), bready := true, phase := B)
    else a.(beat := (a.beat + 1) % 8,
            w := a.w.(data := SelectWord(a.words, (a.beat + 1) % 8), last := a.beat == 4))
  }

  class StoreModule {
    var phase: Phase
    var beat: nat
    var words: seq<word>
    var aw: WriteAddress
    var w: WriteData
    var bready: bool
    var stats: Stats
    var last: Last

    ghost function State(): Store
      reads this
    {
      Store(phase, beat, words, aw, w, bready, stats, last)
    }

    constructor ()
      ensures State() == Reset()
    {
      phase, beat, words, bready, stats := Idle, 0, Blank(), false, NO_STATS;
      aw, w, last := WriteAddress(0, 0, false), WriteData(0, false, false), NO_LAST;
    }

    method Clock(i: Inputs)
      requires |words| == 6
      modifies this
      ensures State() == Next(old(State()), i)
    {
      if !i.resetn || !i.enable {
        ClearRegisters();
        return;
      }
      var errors := stats.errors;
      UpdateStatus();
      if i.request && phase != Idle {
        stats := stats.(sticky := true, errors := Increment(errors));
      }
      match phase {
        case Idle => AcceptRequest(i);
        case Aw =>
          if aw.valid && i.awready {
            aw, w := aw.(valid := false), WriteData(words[0], false, true);
            beat, phase := 0, W;
          }
        case W =>
          if w.valid && i.wready {
            SendNext();
          }
        case B =>
          if i.bvalid && bready {
            if i.bresp != 0 {
              stats := stats.(sticky := true, errors := Increment(errors));
            }
            bready, phase := false, Idle;
          }
      }
    }

    method UpdateStatus()
      modifies this`stats
      ensures stats == old(stats).(status := StatusWord(old(State())))
    {
      var flags := (if phase == Idle then 4 else 1) + if stats.sticky then 2 else 0;
      stats := stats.(status := stats.count % 0x1_0000 * 0x1_0000 + last.classId * 0x100 + flags);
    }

    method ClearRegisters()
      modifies this
      ensures State() == Reset()
    {
      phase, beat, words, bready, stats := Idle, 0, Blank(), false, NO_STATS;
      aw, w, last := WriteAddress(0, 0, false), WriteData(0, false, false), NO_LAST;
    }

    method AcceptRequest(i: Inputs)
      modifies this
      ensures State() == Accept(old(State()), i)
    {
      aw, w, bready, beat := aw.(valid := false), w.(valid := false, last := false), false, 0;
      if i.request {
        words, aw := Payload(i), WriteAddress((i.base + i.offset) % W32, LEN, true);
        last := Last(i.offset, (i.base + i.offset) % W32, i.classId);
        stats, phase := stats.(count := Increment(stats.count)), Aw;
      }
    }

    method SendNext()
      requires |words| == 6
      modifies this
      ensures State() == NextBeat(old(State()))
    {
      if beat == LEN {
        w, bready, phase := w.(valid := false, last := false), true, B;
      } else {
        w := w.(data := SelectWord(words, (beat + 1) % 8), last := beat == 4);
        beat := (beat + 1) % 8;
      }
    }
  }

  // ------------------------------------------------------------------ what reaches the bus

  datatype Event = SentAddress(addr: word, len: nat) | SentData(data: word, last: bool)

  datatype Job = Job(addr: word, words: seq<word>)

  /** The transfers the bus sees in this cycle: VALID and READY both high. */
  function Transfers(s: Store, i: Inputs): seq<Event> {
    (if s.aw.valid && i.awready then [SentAddress(s.aw.addr, s.aw.len)] else [])
    + if s.w.valid && i.wready then [SentData(s.w.data, s.w.last)] else []
  }

  /** The six result words at the inputs, in the order they are to be stored. */
  function Results(i: Inputs): seq<word> {
    [i.statusWord, i.logit0, i.logit1, i.classId, i.hidden0, i.hidden1]
  }

  /** The request accepted in this cycle, if any: where its results go, and which they are. */
  function Accepted(s: Store, i: Inputs): seq<Job> {
    if s.phase == Idle && i.request then [Job((i.base + i.offset) % W32, Results(i))] else []
  }

  /** The transfers a whole store consists of. */
  function DataEvents(words: seq<word>, k: nat): (r: seq<Event>)
    requires k <= |words|
    ensures |r| == k
  {
    seq(k, n requires 0 <= n < k => SentData(words[n], n == |words| - 1))
  }

  function StoreEvents(j: Job): seq<Event> {
    [SentAddress(j.addr, LEN)] + DataEvents(j.words, |j.words|)
  }

  function AllEvents(jobs: seq<Job>): seq<Event> {
    if jobs == [] then [] else AllEvents(jobs[..|jobs| - 1]) + StoreEvents(jobs[|jobs| - 1])
  }

  /** How much of the current store has been sent, given its state. */
  function Sent(s: Store, j: Job): seq<Event>
    requires |j.words| == 6 && s.beat <= 5
  {
    match s.phase
    case Idle => StoreEvents(j)
    case Aw => []
    case W => [SentAddress(j.addr, LEN)] + DataEvents(j.words, s.beat)
    case B => StoreEvents(j)
  }

  /** The channels carry exactly the next transfer of the last accepted job. */
  ghost predicate Channels(s: Store, j: Job) {
    && s.words == j.words && |j.words| == 6
    && (s.phase == Aw <==> s.aw.valid) && (s.phase == W <==> s.w.valid) && (s.phase == B <==> s.bready)
    && s.beat <= 5
    && (s.phase == Aw ==> s.aw == WriteAddress(j.addr, LEN, true))
    && (s.phase == W ==> s.w == WriteData(j.words[s.beat], s.beat == 5, true))
  }

  /** `log` is every transfer of every accepted job, the last one as far as it has got. */
  ghost predicate Inv(s: Store, jobs: seq<Job>, log: seq<Event>) {
    && |s.words| == 6
    && if jobs == [] then s.phase == Idle && !s.aw.valid && !s.w.valid && !s.bready && log == []
       else var j := jobs[|jobs| - 1];
         Channels(s, j) && log == AllEvents(jobs[..|jobs| - 1]) + Sent(s, j)
  }

  lemma StepKeeps(s: Store, i: Inputs, jobs: seq<Job>, log: seq<Event>)
    requires Inv(s, jobs, log) && i.resetn && i.enable
    ensures Inv(Next(s, i), jobs + Accepted(s, i), log + Transfers(s, i))
  {
    hide Next, Transfers, AllEvents, Sent;
    if s.phase == Idle && i.request {
      AcceptKeeps(s, i, jobs, log);
    } else if jobs == [] {
      NothingSent(s, i);
      assert log + Transfers(s, i) == [] && jobs + Accepted(s, i) == [];
    } else {
      var j := jobs[|jobs| - 1];
      assert jobs + Accepted(s, i) == jobs;
      SentGrows(s, i, j);
      assert log + Transfers(s, i) == AllEvents(jobs[..|jobs| - 1]) + (Sent(s, j) + Transfers(s, i));
    }
  }

  lemma NothingSent(s: Store, i: Inputs)
    requires s.phase == Idle && !s.aw.valid && !s.w.valid && !s.bready && |s.words| == 6
    requires i.resetn && i.enable && !i.request
    ensures var t := Next(s, i); t.phase == Idle && !t.aw.valid && !t.w.valid && !t.bready && Transfers(s, i) == []
  {
    hide StatusWord;
  }

  lemma AcceptKeeps(s: Store, i: Inputs, jobs: seq<Job>, log: seq<Event>)
    requires Inv(s, jobs, log) && i.resetn && i.enable && s.phase == Idle && i.request
    ensures Inv(Next(s, i), jobs + Accepted(s, i), log + Transfers(s, i))
  {
    hide StatusWord, Next, StoreEvents;
    var t, j := Next(s, i), Job(Target(i), Payload(i));
    var all := jobs + [j];
    AcceptOpens(s, i, j);
    assert all[..|all| - 1] == jobs && log + Transfers(s, i) == log == AllEvents(jobs);
    assert Inv(t, all, log);
  }

  lemma AcceptOpens(s: Store, i: Inputs, j: Job)
    requires s.phase == Idle && i.request && i.resetn && i.enable && |s.words| == 6
    requires j == Job(Target(i), Payload(i))
    ensures Channels(Next(s, i), j) && Sent(Next(s, i), j) == []
  {
    hide StatusWord, StoreEvents;
  }

  lemma SentGrows(s: Store, i: Inputs, j: Job)
    requires Channels(s, j) && i.resetn && i.enable && !(s.phase == Idle && i.request)
    ensures Channels(Next(s, i), j)
    ensures Sent(Next(s, i), j) == Sent(s, j) + Transfers(s, i)
  {
    hide StatusWord;
    var t := Next(s, i);
    if s.phase == Aw && i.awready {
      assert DataEvents(j.words, 0) == [];
    }
    if s.phase == W && i.wready {
      assert DataEvents(j.words, s.beat + 1) == DataEvents(j.words, s.beat) + [SentData(j.words[s.beat], s.beat == 5)];
      assert s.beat == 5 ==> DataEvents(j.words, 6) == DataEvents(j.words, |j.words|);
    }
  }

  // ------------------------------------------------------------------ whole runs

  ghost predicate Enabled(ins: seq<Inputs>) {
    forall k | 0 <= k < |ins| :: ins[k].resetn && ins[k].enable
  }

  ghost function Run(s: Store, ins: seq<Inputs>): (r: Store)
    requires |s.words| == 6
    ensures |r.words| == 6
    decreases |ins|
  {
    if ins == [] then s else Run(Next(s, ins[0]), ins[1..])
  }

  ghost function Jobs(s: Store, ins: seq<Inputs>): seq<Job>
    requires |s.words| == 6
    decreases |ins|
  {
    if ins == [] then [] else Accepted(s, ins[0]) + Jobs(Next(s, ins[0]), ins[1..])
  }

  ghost function Log(s: Store, ins: seq<Inputs>): seq<Event>
    requires |s.words| == 6
    decreases |ins|
  {
    if ins == [] then [] else Transfers(s, ins[0]) + Log(Next(s, ins[0]), ins[1..])
  }

  lemma {:induction false} RunKeeps(s: Store, ins: seq<Inputs>, jobs: seq<Job>, log: seq<Event>)
    requires Inv(s, jobs, log) && Enabled(ins)
    ensures Inv(Run(s, ins), jobs + Jobs(s, ins), log + Log(s, ins))
    decreases |ins|
  {
    hide Next, Accepted, Transfers, AllEvents, Sent, Channels;
    if ins == [] {
      assert jobs + [] == jobs && log + [] == log;
    } else {
      StepKeeps(s, ins[0], jobs, log);
      RunKeeps(Next(s, ins[0]), ins[1..], jobs + Accepted(s, ins[0]), log + Transfers(s, ins[0]));
      var t := Next(s, ins[0]);
      assert jobs + Accepted(s, ins[0]) + Jobs(t, ins[1..]) == jobs + Jobs(s, ins);
      assert log + Transfers(s, ins[0]) + Log(t, ins[1..]) == log + Log(s, ins);
    }
  }

  /** For every ready/valid schedule, once the engine is idle again the bus has carried, for
      each accepted store and in order, one address and exactly its six latched words, WLAST
      on the sixth only; and never more than that before. */
  lemma EachStoreSentOnce(ins: seq<Inputs>)
    requires Enabled(ins)
    ensures var s, jobs, log := Run(Reset(), ins), Jobs(Reset(), ins), Log(Reset(), ins);
      && log <= AllEvents(jobs)
      && (s.phase == Idle ==> log == AllEvents(jobs))
  {
    hide Run, Jobs, Log, AllEvents;
    RunKeeps(Reset(), ins, [], []);
    var s, jobs, log := Run(Reset(), ins), Jobs(Reset(), ins), Log(Reset(), ins);
    assert [] + jobs == jobs && [] + log == log;
    LogIsPrefix(s, jobs, log);
  }

  lemma LogIsPrefix(s: Store, jobs: seq<Job>, log: seq<Event>)
    requires Inv(s, jobs, log)
    ensures log <= AllEvents(jobs) && (s.phase == Idle ==> log == AllEvents(jobs))
  {
    if jobs != [] {
      SentIsPrefix(s, jobs[|jobs| - 1]);
    }
  }

  lemma SentIsPrefix(s: Store, j: Job)
    requires |j.words| == 6 && s.beat <= 5
    ensures Sent(s, j) <= StoreEvents(j)
  {
  }

  /** VALID stays up and its payload stays put until READY, on both write channels. */
  lemma HeldWhileStalled(ins: seq<Inputs>, i: Inputs)
    requires Enabled(ins) && i.resetn && i.enable
    ensures var s := Run(Reset(), ins);
      && (s.aw.valid && !i.awready ==> Next(s, i).aw == s.aw)
      && (s.w.valid && !i.wready ==> Next(s, i).w == s.w)
      && !(s.aw.valid && s.w.valid)
  {
    RunKeeps(Reset(), ins, [], []);
    hide AllEvents, Sent, Jobs, Log, Run;
  }

  // ------------------------------------------------------------------ what memory receives

  /** A memory that writes each data beat at the next word of the last address received. */
  datatype WriteSlave = WriteSlave(mem: map<nat, word>, next: nat)

  function Receive(m: WriteSlave, log: seq<Event>): WriteSlave
    decreases |log|
  {
    if log == [] then m
    else
      var r := Receive(m, log[..|log| - 1]);
      match log[|log| - 1]
      case SentAddress(a, _) => r.(next := a)
      case SentData(d, _) => WriteSlave(r.mem[r.next := d], r.next + 4)
  }

  function StoreAll(mem: map<nat, word>, addr: nat, words: seq<word>): map<nat, word> {
    if words == [] then mem
    else StoreAll(mem, addr, words[..|words| - 1])[addr + 4 * (|words| - 1) := words[|words| - 1]]
  }

  function StoreJobs(mem: map<nat, word>, jobs: seq<Job>): map<nat, word> {
    if jobs == [] then mem
    else
      var j := jobs[|jobs| - 1];
      StoreAll(StoreJobs(mem, jobs[..|jobs| - 1]), j.addr, j.words)
  }

  lemma {:induction false} ReceiveData(m: WriteSlave, log: seq<Event>, addr: word, words: seq<word>, k: nat)
    requires k <= |words|
    ensures var r := Receive(m, log + ([SentAddress(addr, LEN)] + DataEvents(words, k)));
      r.mem == StoreAll(Receive(m, log).mem, addr, words[..k]) && r.next == addr + 4 * k
    decreases k
  {
    var all := log + ([SentAddress(addr, LEN)] + DataEvents(words, k));
    if k == 0 {
      assert all[..|all| - 1] == log;
    } else {
      ReceiveData(m, log, addr, words, k - 1);
      assert all[..|all| - 1] == log + ([SentAddress(addr, LEN)] + DataEvents(words, k - 1));
      assert words[..k][..k - 1] == words[..k - 1];
    }
  }

  lemma {:induction false} ReceiveJobs(m: WriteSlave, jobs: seq<Job>)
    ensures Receive(m, AllEvents(jobs)).mem == StoreJobs(m.mem, jobs)
    decreases |jobs|
  {
    if jobs == [] {
    } else {
      var j := jobs[|jobs| - 1];
      ReceiveJobs(m, jobs[..|jobs| - 1]);
      ReceiveData(m, AllEvents(jobs[..|jobs| - 1]), j.addr, j.words, |j.words|);
      assert j.words[..|j.words|] == j.words;
    }
  }

  /** So memory ends with every accepted six-word result at base plus offset, in order. */
  lemma MemoryReceivesResults(ins: seq<Inputs>, mem: map<nat, word>)
    requires Enabled(ins) && Run(Reset(), ins).phase == Idle
    ensures Receive(WriteSlave(mem, 0), Log(Reset(), ins)).mem == StoreJobs(mem, Jobs(Reset(), ins))
  {
    EachStoreSentOnce(ins);
    ReceiveJobs(WriteSlave(mem, 0), Jobs(Reset(), ins));
  }

  /** So the last accepted store stands in memory: its results at six consecutive words from
      base + offset, as they were at the inputs in the accepting cycle. */
  lemma LastStoreStands(mem: map<nat, word>, jobs: seq<Job>, i: Inputs)
    requires jobs != [] && jobs[|jobs| - 1] == Job((i.base + i.offset) % W32, Results(i))
    ensures var m, a := StoreJobs(mem, jobs), (i.base + i.offset) % W32;
      && a in m && m[a] == i.statusWord && a + 4 in m && m[a + 4] == i.logit0 && a + 8 in m && m[a + 8] == i.logit1
      && a + 12 in m && m[a + 12] == i.classId && a + 16 in m && m[a + 16] == i.hidden0
      && a + 20 in m && m[a + 20] == i.hidden1
  {
    var a, before := (i.base + i.offset) % W32, StoreJobs(mem, jobs[..|jobs| - 1]);
    StoredWords(before, a, Results(i));
    var m := StoreAll(before, a, Results(i));
    assert a + 4 * 0 in m && a + 4 * 1 in m && a + 4 * 2 in m && a + 4 * 3 in m && a + 4 * 4 in m && a + 4 * 5 in m;
  }

  lemma {:induction false} StoredWords(mem: map<nat, word>, addr: word, words: seq<word>)
    ensures forall k | 0 <= k < |words| ::
      addr + 4 * k in StoreAll(mem, addr, words) && StoreAll(mem, addr, words)[addr + 4 * k] == words[k]
    decreases |words|
  {
    if words == [] {
    } else {
      StoredWords(mem, addr, words[..|words| - 1]);
    }
  }

  // ------------------------------------------------------------------ what software reads

  /** A request while a store is under way, or a store answered with an error. */
  predicate Fails(s: Store, i: Inputs) {
    (i.request && s.phase != Idle) || (s.phase == B && s.bready && i.bvalid && i.bresp != 0)
  }

  ghost function Failures(s: Store, ins: seq<Inputs>): nat
    requires |s.words| == 6
    decreases |ins|
  {
    if ins == [] then 0 else (if Fails(s, ins[0]) then 1 else 0) + Failures(Next(s, ins[0]), ins[1..])
  }

  /** The inputs of the last accepted request of a run, if there was one. */
  ghost function LastRequest(s: Store, ins: seq<Inputs>, before: Last): Last
    requires |s.words| == 6
    decreases |ins|
  {
    if ins == [] then before
    else
      var i := ins[0];
      LastRequest(Next(s, i), ins[1..],
                  if s.phase == Idle && i.request then Last(i.offset, (i.base + i.offset) % W32, i.classId) else before)
  }

  lemma ReportStep(s: Store, i: Inputs)
    requires |s.words| == 6 && i.resetn && i.enable
    ensures var t := Next(s, i);
      && t.stats.count == (s.stats.count + |Accepted(s, i)|) % W32
      && t.stats.errors == (s.stats.errors + if Fails(s, i) then 1 else 0) % W32
      && (t.stats.sticky <==> s.stats.sticky || Fails(s, i))
      && t.last == (if s.phase == Idle && i.request then Last(i.offset, (i.base + i.offset) % W32, i.classId)
                    else s.last)
  {
    hide StatusWord, SelectWord;
  }

  lemma AddModulo(a: nat, b: nat, c: nat)
    ensures ((a + b) % W32 + c) % W32 == (a + (b + c)) % W32
  {
    var n := a + b;
    var m := n % W32 + c;
    assert n + c == (n / W32 + m / W32) * W32 + m % W32;
    DivModUnique(n + c, W32, n / W32 + m / W32, m % W32);
  }

  /** Over every run: the counter counts the stores accepted, the error counter the cycles that
      failed, the error flag is up iff one did, and the last-store registers hold the offset,
      the address and the class of the last accepted request. */
  lemma {:induction false} StoreReports(s: Store, ins: seq<Inputs>)
    requires |s.words| == 6 && Enabled(ins)
    ensures var t := Run(s, ins);
      && t.stats.count == (s.stats.count + |Jobs(s, ins)|) % W32
      && t.stats.errors == (s.stats.errors + Failures(s, ins)) % W32
      && (t.stats.sticky <==> s.stats.sticky || Failures(s, ins) > 0)
      && t.last == LastRequest(s, ins, s.last)
    decreases |ins|
  {
    hide Next, Fails, Accepted;
    if ins == [] {
      NoReports(s);
    } else {
      var i, t := ins[0], Next(s, ins[0]);
      ReportStep(s, i);
      StoreReports(t, ins[1..]);
      assert |Jobs(s, ins)| == |Accepted(s, i)| + |Jobs(t, ins[1..])|;
      AddModulo(s.stats.count, |Accepted(s, i)|, |Jobs(t, ins[1..])|);
      AddModulo(s.stats.errors, if Fails(s, i) then 1 else 0, Failures(t, ins[1..]));
    }
  }

  lemma NoReports(s: Store)
    ensures s.stats.count % W32 == s.stats.count && s.stats.errors % W32 == s.stats.errors
  {
  }

  /** The status word, of the registers before the edge: the count modulo 2^16, the class of the
      last request, and IDLE in bit 2, ERROR in bit 1, BUSY in bit 0. */
  lemma StatusShows(s: Store, i: Inputs)
    requires |s.words| == 6 && i.resetn && i.enable
    ensures var status: nat := Next(s, i).stats.status;
      && status / 0x1_0000 == s.stats.count % 0x1_0000 && status / 0x100 % 256 == s.last.classId
      && status % 256 < 8 && (status / 4 % 2 == 1 <==> s.phase == Idle)
      && (status / 2 % 2 == 1 <==> s.stats.sticky) && (status % 2 == 1 <==> s.phase != Idle)
  {
    StatusKept(s, i);
    hide Next;
    var b0, b1 := if s.phase == Idle then 0 else 1, if s.stats.sticky then 1 else 0;
    var b2 := 1 - b0;
    StatusFields(s.stats.count % 0x1_0000, s.last.classId, b0, b1, b2);
  }

  lemma StatusKept(s: Store, i: Inputs)
    requires |s.words| == 6 && i.resetn && i.enable
    ensures Next(s, i).stats.status == StatusWord(s)
  {
    hide StatusWord, SelectWord;
  }

  lemma StatusFields(count: nat, class_: byte, b0: nat, b1: nat, b2: nat)
    requires count < 0x1_0000 && b0 < 2 && b1 < 2 && b2 < 2
    ensures var s := count * 0x1_0000 + class_ * 0x100 + 4 * b2 + 2 * b1 + b0;
      && s / 0x1_0000 == count && s / 0x100 % 256 == class_ && s % 256 < 8
      && s / 4 % 2 == b2 && s / 2 % 2 == b1 && s % 2 == b0
  {
    var low := 4 * b2 + 2 * b1 + b0;
    var s := count * 0x1_0000 + class_ * 0x100 + low;
    DivModUnique(s, 0x1_0000, count, class_ * 0x100 + low);
    DivModUnique(s, 0x100, count * 0x100 + class_, low);
    DivModUnique(count * 0x100 + class_, 0x100, count, class_);
    DivModUnique(s, 4, count * 0x4000 + class_ * 0x40 + b2, 2 * b1 + b0);
    DivModUnique(s, 2, count * 0x8000 + class_ * 0x80 + 2 * b2 + b1, b0);
    DivModUnique(count * 0x4000 + class_ * 0x40 + b2, 2, count * 0x2000 + class_ * 0x20, b2);
    DivModUnique(count * 0x8000 + class_ * 0x80 + 2 * b2 + b1, 2, count * 0x4000 + class_ * 0x40 + b2, b1);
  }

  /** Disabled or in reset, the engine is idle, offers nothing and has its registers cleared. */
  lemma StoreRests(s: Store, i: Inputs)
    requires |s.words| == 6 && (!i.resetn || !i.enable)
    ensures var t := Next(s, i);
      && t.phase == Idle && !t.aw.valid && !t.w.valid && !t.bready && t.words == [0, 0, 0, 0, 0, 0]
      && t.stats == Stats(false, 0, 0, 4) && t.last == Last(0, 0, 0)
  {
  }
}
