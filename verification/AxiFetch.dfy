/** The descriptor fetch engine: one eight-beat burst per request. */
module AxiFetch {
  import opened Bits
  import opened AxiTypes

  /** The one-cycle outputs. */
  datatype Pulse = Pulse(ready: bool, done: bool, error: bool)

  const QUIET := Pulse(false, false, false)

  /** What software reads back of the last request. */
  datatype Last = Last(araddr: word, sequence: word, status: word)

  datatype Fetch = Fetch(
    pulse: Pulse, active: bool, last: Last, beats: nat, data: seq<word>, ar: ReadAddress, rready: bool)

  const DESC_LEN: nat := 7

  function Reset(): Fetch {
    Fetch(QUIET, false, Last(0, 0, STATUS_IDLE), 0, Blank(), ReadAddress(0, DESC_LEN, false), false)
  }

  datatype Inputs = Inputs(
    resetn: bool, enable: bool, base: word, valid: bool, offset: word, sequence: word, arready: bool, r: ReadData)

  /** The request side: present the address until the burst is accepted. */
  function Request(s: Fetch, i: Inputs): Fetch {
    var a := s.(pulse := QUIET);
    var b := if !s.active && i.valid then
        a.(ar := ReadAddress((i.base + i.offset) % W32, DESC_LEN, true), rready := false,
           beats := 0, data := Blank(), last := s.last.(sequence := i.sequence, status := STATUS_BUSY))
      else a;
    if s.ar.valid && i.arready then
      b.(ar := b.ar.(valid := false), rready := true, pulse := Pulse(true, false, false), active := true,
         last := b.last.(araddr := s.ar.addr))
    else b
  }

  /** An error shows in the status until a good last beat hides it. */
  function StatusAfter(status: word, r: ReadData): word {
    if r.resp != RESP_OKAY then STATUS_ERROR else if r.last then STATUS_IDLE else status
  }

  /** One data beat. */
  function Beat(b: Fetch, s: Fetch, i: Inputs): Fetch {
    var c := b.(data := SetWord(b.data, s.beats, i.r.data), beats := (s.beats + 1) % 16,
                pulse := b.pulse.(error := i.r.resp != RESP_OKAY),
                last := b.last.(status := StatusAfter(b.last.status, i.r)));
    if i.r.last then c.(rready := false, pulse := c.pulse.(done := true), active := false) else c
  }

  function Disabled(s: Fetch): Fetch {
    s.(pulse := QUIET, active := false, last := s.last.(status := STATUS_IDLE), beats := 0, data := Blank(),
       ar := s.ar.(valid := false), rready := false)
  }

  function Next(s: Fetch, i: Inputs): Fetch {
    if !i.resetn then Reset()
    else if !i.enable then Disabled(s)
    else
      var b := Request(s, i);
      if s.active && i.r.valid && s.rready then Beat(b, s, i) else b
  }

  class FetchModule {
    var pulse: Pulse
    var active: bool
    var last: Last
    var beats: nat
    var data: seq<word>
    var ar: ReadAddress
    var rready: bool

    ghost function State(): Fetch
      reads this
    {
      Fetch(pulse, active, last, beats, data, ar, rready)
    }

    constructor ()
      ensures State() == Reset()
    {
      pulse, active, last, beats, data := QUIET, false, Last(0, 0, STATUS_IDLE), 0, Blank();
      ar, rready := ReadAddress(0, DESC_LEN, false), false;
    }

    method Clock(i: Inputs)
      modifies this
      ensures State() == Next(old(State()), i)
    {
      if !i.resetn {
        ClearRegisters();
        return;
      }
      if !i.enable {
        Disable();
        return;
      }
      ghost var s := State();
      var takesBeat := active && i.r.valid && rready;
      var at := beats;
      PresentAddress(i);
      if takesBeat {
        TakeBeat(i, at, s);
      }
    }

    method ClearRegisters()
      modifies this
      ensures State() == Reset()
    {
      pulse, active, last, beats, data := QUIET, false, Last(0, 0, STATUS_IDLE), 0, Blank();
      ar, rready := ReadAddress(0, DESC_LEN, false), false;
    }

    method Disable()
      modifies this
      ensures State() == Disabled(old(State()))
    {
      pulse, active, last, beats, data := QUIET, false, last.(status := STATUS_IDLE), 0, Blank();
      ar, rready := ar.(valid := false), false;
    }

    method PresentAddress(i: Inputs)
      modifies this
      ensures State() == Request(old(State()), i)
    {
      var accepted := ar.valid && i.arready;
      var addr := ar.addr;
      pulse := QUIET;
      if !active && i.valid {
        ar, rready, beats := ReadAddress((i.base + i.offset) % W32, DESC_LEN, true), false, 0;
        data, last := Blank(), last.(sequence := i.sequence, status := STATUS_BUSY);
      }
      if accepted {
        ar, rready, active := ar.(valid := false), true, true;
        pulse, last := pulse.(ready := true), last.(araddr := addr);
      }
    }

    method TakeBeat(i: Inputs, at: nat, ghost s: Fetch)
      requires s.beats == at
      modifies this
      ensures State() == Beat(old(State()), s, i)
    {
      data, beats := SetWord(data, at, i.r.data), (at + 1) % 16;
      if i.r.resp != RESP_OKAY {
        pulse, last := pulse.(error := true), last.(status := STATUS_ERROR);
      } else {
        pulse := pulse.(error := false);
      }
      if i.r.last && i.r.resp == RESP_OKAY {
        last := last.(status := STATUS_IDLE);
      }
      if i.r.last {
        rready, pulse, active := false, pulse.(done := true), false;
      }
    }
  }
}
