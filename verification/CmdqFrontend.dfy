/** The doorbell frontend: starts at most one descriptor fetch per doorbell change and
    retires it when the fetch engine is done. */
module CmdqFrontend {
  import opened AxiTypes
  import opened Bits

  datatype Request = Request(valid: bool, slot: nat, offset: word, sequence: word)

  datatype Frontend = Frontend(
    tail: word, request: Request, inflight: bool, processed: word, lastDoorbell: word, errorSticky: bool,
    status: word)

  /** `size` and `base` describe the ring; `seed` is the tail software wrote. */
  datatype Inputs = Inputs(
    resetn: bool, enable: bool, base: word, size: word, head: word, seed: word, doorbell: word,
    ready: bool, done: bool, error: bool)

  function Entries(size: word): (n: nat)
    ensures n > 0
  {
    if size / 32 == 0 then 1 else size / 32
  }

  const IDLE_REQUEST := Request(false, 0, 0, 0)

  function Reset(): Frontend {
    Frontend(0, IDLE_REQUEST, false, 0, 0, false, STATUS_IDLE)
  }

  function Disabled(i: Inputs): Frontend {
    Frontend(i.seed, IDLE_REQUEST, false, 0, i.doorbell, false, if i.head == i.seed then STATUS_IDLE else 0)
  }

  predicate Starts(s: Frontend, i: Inputs) {
    !s.request.valid && !s.inflight && i.head != s.tail && i.doorbell != s.lastDoorbell
  }

  function TailRequest(s: Frontend, i: Inputs): Request {
    var slot := s.tail % Entries(i.size);
    Request(true, slot % 0x1_0000, (i.base + 32 * slot) % W32, s.processed)
  }

  function Retire(a: Frontend, s: Frontend, i: Inputs): Frontend {
    a.(inflight := false, tail := (s.tail + 1) % W32 % Entries(i.size), processed := (s.processed + 1) % W32,
       errorSticky := s.errorSticky || i.error)
  }

  function StatusFlags(error: bool, empty: bool, busy: bool): (r: word)
    ensures r < 8
  {
    (if error then STATUS_ERROR else 0) + (if empty then STATUS_IDLE else 0) + if busy then STATUS_BUSY else 0
  }

  /** The status word, from the registers before this edge; here IDLE stands for "empty". */
  function StatusWord(s: Frontend, i: Inputs): word {
    var busy := s.request.valid || s.inflight;
    var processed := s.processed + if s.inflight && i.done then 1 else 0;
    processed % 0x1_0000 * 0x1_0000 + StatusFlags(s.errorSticky || i.error, !busy && i.head == s.tail, busy)
  }

  function Next(s: Frontend, i: Inputs): Frontend {
    if !i.resetn then Reset()
    else if !i.enable then Disabled(i)
    else
      var a := s.(lastDoorbell := i.doorbell, status := StatusWord(s, i));
      var b := if Starts(s, i) then a.(request := TailRequest(s, i)) else a;
      var c := if s.request.valid && i.ready then b.(request := b.request.(valid := false), inflight := true) else b;
      if s.inflight && i.done then Retire(c, s, i) else c
  }

  class FrontendModule {
    var tail: word
    var request: Request
    var inflight: bool
    var processed: word
    var lastDoorbell: word
    var errorSticky: bool
    var status: word

    ghost function State(): Frontend
      reads this
    {
      Frontend(tail, request, inflight, processed, lastDoorbell, errorSticky, status)
    }

    constructor ()
      ensures State() == Reset()
    {
      tail, request, inflight, processed, lastDoorbell, errorSticky := 0, IDLE_REQUEST, false, 0, 0, false;
      status := STATUS_IDLE;
    }

    method Clock(i: Inputs)
      modifies this
      ensures State() == Next(old(State()), i)
    {
      if !i.resetn {
        tail, request, inflight := 0, IDLE_REQUEST, false;
        processed, lastDoorbell, errorSticky, status := 0, 0, false, STATUS_IDLE;
        return;
      }
      if !i.enable {
        tail, request, inflight := i.seed, IDLE_REQUEST, false;
        processed, lastDoorbell, errorSticky := 0, i.doorbell, false;
        status := if i.head == i.seed then STATUS_IDLE else 0;
        return;
      }
      var wasValid, wasInflight := request.valid, inflight;
      UpdateStatus(i);
      StartFetch(i);
      if wasValid && i.ready {
        request, inflight := request.(valid := false), true;
      }
      if wasInflight && i.done {
        inflight, tail := false, (tail + 1) % W32 % Entries(i.size);
        processed, errorSticky := (processed + 1) % W32, errorSticky || i.error;
      }
    }

    method UpdateStatus(i: Inputs)
      modifies this`status
      ensures status == StatusWord(old(State()), i)
    {
      var busy := request.valid || inflight;
      var count := processed;
      if inflight && i.done { count := count + 1; }
      status := count % 0x1_0000 * 0x1_0000 + StatusFlags(errorSticky || i.error, !busy && i.head == tail, busy);
    }

    method StartFetch(i: Inputs)
      modifies this`request, this`lastDoorbell
      ensures lastDoorbell == i.doorbell
      ensures request == if Starts(old(State()), i) then TailRequest(old(State()), i) else old(request)
    {
      if !request.valid && !inflight && i.head != tail && i.doorbell != lastDoorbell {
        var slot := tail % Entries(i.size);
        request := Request(true, slot % 0x1_0000, (i.base + 32 * slot) % W32, processed);
      }
      lastDoorbell := i.doorbell;
    }
  }
}
