/** The NPU payload fetch engine: a two-beat input burst, then a six-beat weight burst. */
module NpuPayload {
  import opened Bits
  import opened AxiTypes

  datatype Phase = Idle | InputAr | InputR | WeightAr | WeightR

  datatype Request = Request(
    modelId: byte, seqLength: half, inputOffset: word, weightOffset: word, outputOffset: word)

  /** The latched request; `words` are input0, input1, weight0_a, weight0_b, weight1_a,
      weight1_b, bias0, bias1. */
  datatype Job = Job(request: Request, words: seq<word>)

  datatype Stats = Stats(sticky: bool, count: word, errors: word, status: word)

  const NO_REQUEST := Request(0, 0, 0, 0, 0)
  const NO_STATS := Stats(false, 0, 0, STATUS_IDLE)

  datatype Payload = Payload(
    phase: Phase, beat: nat, burstError: bool, valid: bool, job: Job, ar: ReadAddress, rready: bool, stats: Stats)

  const INPUT_LEN: nat := 1
  const WEIGHT_LEN: nat := 5

  function Reset(): Payload {
    Payload(Idle, 0, false, false, Job(NO_REQUEST, Blank()), ReadAddress(0, 0, false), false, NO_STATS)
  }

  /** `shadow` are the eight operand registers the fetch starts from. */
  datatype Inputs = Inputs(
    resetn: bool, enable: bool, base: word, dispatch: bool, request: Request, shadow: seq<word>,
    arready: bool, r: ReadData)

  function Increment(w: word): word { (w + 1) % W32 }

  function Next(s: Payload, i: Inputs): Payload {
    if !i.resetn || !i.enable then Reset()
    else Step(Overrun(s.(valid := false), i), s, i)
  }

  function Failed(t: Stats, errors: word): Stats {
    t.(sticky := true, errors := Increment(errors))
  }

  /** A dispatch while a fetch is under way is only counted as an error. */
  function Overrun(a: Payload, i: Inputs): Payload {
    if i.dispatch && a.phase != Idle then a.(stats := Failed(a.stats, a.stats.errors)) else a
  }

  function Step(a: Payload, s: Payload, i: Inputs): Payload {
    if s.phase == Idle then Start(a, s.stats.sticky, i)
    else Advance(a.(stats := a.stats.(status := STATUS_BUSY)), s, i)
  }

  function Advance(a: Payload, s: Payload, i: Inputs): Payload
    requires s.phase != Idle
  {
    match s.phase
    case InputAr =>
      if s.ar.valid && i.arready then
        a.(ar := a.ar.(valid := false), rready := true, beat := 0, burstError := false, phase := InputR)
      else a
    case InputR => if i.r.valid && s.rready then InputBeat(a, s, i) else a
    case WeightAr =>
      if s.ar.valid && i.arready then
        a.(ar := a.ar.(valid := false), rready := true, beat := 0, phase := WeightR)
      else a
    case WeightR => if i.r.valid && s.rready then WeightBeat(a, s, i) else a
  }

  function IdleStatus(sticky: bool): word { STATUS_IDLE + if sticky then STATUS_ERROR else 0 }

  function Start(a: Payload, sticky: bool, i: Inputs): Payload {
    var q := a.(ar := a.ar.(valid := false), rready := false, beat := 0, burstError := false,
                stats := a.stats.(status := IdleStatus(sticky)));
    if i.dispatch then
      q.(job := Job(i.request, i.shadow), stats := q.stats.(status := STATUS_BUSY),
         ar := ReadAddress((i.base + i.request.inputOffset) % W32, INPUT_LEN, true), phase := InputAr)
    else q
  }

  function Store(j: Job, fits: bool, k: nat, w: word): Job {
    if fits then j.(words := SetWord(j.words, k, w)) else j
  }

  function InputBeat(a: Payload, s: Payload, i: Inputs): Payload {
    var bad := i.r.resp != RESP_OKAY || (i.r.last && s.beat != INPUT_LEN);
    var b := a.(burstError := s.burstError || bad, job := Store(a.job, s.beat < 2, s.beat, i.r.data));
    if i.r.last then
      b.(rready := false, ar := ReadAddress((i.base + s.job.request.weightOffset) % W32, WEIGHT_LEN, true),
         beat := 0, phase := WeightAr)
    else b.(beat := (s.beat + 1) % 8)
  }

  function WeightBeat(a: Payload, s: Payload, i: Inputs): Payload {
    var b := a.(burstError := s.burstError || i.r.resp != RESP_OKAY,
                job := Store(a.job, s.beat < 6, 2 + s.beat, i.r.data));
    if i.r.last then
      var bad := s.beat != WEIGHT_LEN || s.burstError || i.r.resp != RESP_OKAY;
      var t := a.stats.(count := Increment(s.stats.count), status := IdleStatus(s.stats.sticky || bad));
      b.(rready := false, valid := true, phase := Idle, stats := if bad then Failed(t, s.stats.errors) else t)
    else b.(beat := (s.beat + 1) % 8)
  }

  class PayloadModule {
    var phase: Phase
    var beat: nat
    var burstError: bool
    var valid: bool
    var job: Job
    var ar: ReadAddress
    var rready: bool
    var stats: Stats

    ghost function State(): Payload
      reads this
    {
      Payload(phase, beat, burstError, valid, job, ar, rready, stats)
    }

    constructor ()
      ensures State() == Reset()
    {
      phase, beat, burstError, valid, job := Idle, 0, false, false, Job(NO_REQUEST, Blank());
      ar, rready, stats := ReadAddress(0, 0, false), false, NO_STATS;
    }

    method Clock(i: Inputs)
      modifies this
      ensures State() == Next(old(State()), i)
    {
      if !i.resetn || !i.enable {
        ClearRegisters();
        return;
      }
      ghost var s := State();
      var sticky, errors := stats.sticky, stats.errors;
      valid := false;
      if i.dispatch && phase != Idle {
        stats := stats.(sticky := true, errors := Increment(errors));
      }
      assert State() == Overrun(s.(valid := false), i);
      if phase == Idle {
        StartOnDispatch(i);
        return;
      }
      stats := stats.(status := STATUS_BUSY);
      match phase {
        case InputAr =>
          if ar.valid && i.arready {
            ar, rready, beat, burstError, phase := ar.(valid := false), true, 0, false, InputR;
          }
        case InputR =>
          if i.r.valid && rready { TakeInput(i, s); }
        case WeightAr =>
          if ar.valid && i.arready {
            ar, rready, beat, phase := ar.(valid := false), true, 0, WeightR;
          }
        case WeightR =>
          if i.r.valid && rready { TakeWeight(i, sticky, errors, s); }
      }
    }

    method ClearRegisters()
      modifies this
      ensures State() == Reset()
    {
      phase, beat, burstError, valid, job := Idle, 0, false, false, Job(NO_REQUEST, Blank());
      ar, rready, stats := ReadAddress(0, 0, false), false, NO_STATS;
    }

    method StartOnDispatch(i: Inputs)
      requires phase == Idle
      modifies this
      ensures State() == Start(old(State()), old(stats.sticky), i)
    {
      ar, rready, beat, burstError := ar.(valid := false), false, 0, false;
      stats := stats.(status := IdleStatus(stats.sticky));
      if i.dispatch {
        job, stats := Job(i.request, i.shadow), stats.(status := STATUS_BUSY);
        ar, phase := ReadAddress((i.base + i.request.inputOffset) % W32, INPUT_LEN, true), InputAr;
      }
    }

    method TakeInput(i: Inputs, ghost s: Payload)
      requires phase == InputR && s.beat == beat && s.burstError == burstError && s.job == job
      modifies this
      ensures State() == InputBeat(old(State()), s, i)
    {
      if i.r.resp != RESP_OKAY { burstError := true; }
      if beat < 2 { job := job.(words := SetWord(job.words, beat, i.r.data)); }
      if i.r.last {
        if beat != INPUT_LEN { burstError := true; }
        rready, ar := false, ReadAddress((i.base + job.request.weightOffset) % W32, WEIGHT_LEN, true);
        beat, phase := 0, WeightAr;
      } else {
        beat := (beat + 1) % 8;
      }
    }

    /** The error counter increments from its value at the clock edge, whichever path raises it. */
    method TakeWeight(i: Inputs, sticky: bool, errors: word, ghost s: Payload)
      requires phase == WeightR && s.beat == beat && s.burstError == burstError
      requires s.stats.count == stats.count && s.stats.errors == errors && s.stats.sticky == sticky
      modifies this
      ensures State() == WeightBeat(old(State()), s, i)
    {
      var bad := beat != WEIGHT_LEN || burstError || i.r.resp != RESP_OKAY;
      if i.r.resp != RESP_OKAY { burstError := true; }
      if beat < 6 { job := job.(words := SetWord(job.words, 2 + beat, i.r.data)); }
      if i.r.last {
        rready, valid, phase := false, true, Idle;
        stats := stats.(count := Increment(stats.count), status := IdleStatus(sticky || bad));
        if bad { stats := stats.(sticky := true, errors := Increment(errors)); }
      } else {
        beat := (beat + 1) % 8;
      }
    }
  }
}
