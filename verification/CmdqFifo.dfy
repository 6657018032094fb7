/** First-in first-out delivery: over every interleaving of pushes, submissions,
    synchronisations and device progress, the device executes exactly the pushed
    descriptors, once each, in order. */
module CmdqFifo {
  import opened Bits
  import opened UnifiedMem
  import opened EmuSpec
  import opened QueueDrain
  import opened CmdqHost

  // ------------------------------------------------------------------ counting modulo n

  /** The ring slot of the k-th descriptor. */
  function Slot(n: nat, k: nat): (s: nat)
    requires n > 0
    ensures s < n
  {
    k % n
  }

  lemma SlotNext(n: nat, k: nat)
    requires n > 0
    ensures Slot(n, k + 1) == if Slot(n, k) + 1 == n then 0 else Slot(n, k) + 1
  {
    var q, r := k / n, k % n;
    assert k == q * n + r;
    if r + 1 == n {
      assert (q + 1) * n == q * n + n;
      DivModUnique(k + 1, n, q + 1, 0);
    } else {
      DivModUnique(k + 1, n, q, r + 1);
    }
  }

  lemma {:induction false} SlotAdd(n: nat, k: nat, j: nat)
    requires n > 0 && j <= n
    ensures Slot(n, k + j) == SlotAt(n, Slot(n, k), j)
    decreases j
  {
    hide Slot;
    if j == 0 {
    } else {
      SlotAdd(n, k, j - 1);
      SlotNext(n, k + (j - 1));
      assert k + (j - 1) + 1 == k + j;
    }
  }

  lemma SlotAhead(n: nat, a: nat, b: nat)
    requires n > 0 && a <= b < a + n
    ensures Ahead(n, Slot(n, a), Slot(n, b)) == b - a
    ensures Slot(n, a) == Slot(n, b) <==> a == b
  {
    hide Slot;
    SlotAdd(n, a, b - a);
  }

  // ------------------------------------------------------------------ the system

  /** Host and device share the unified memory. */
  datatype System = System(host: Host, dev: Emu)

  /** What has happened so far, for stating the property: every descriptor pushed, how many
      of them were submitted, what the device executed, how far the host's cached tail had
      seen it, and the ring position the run started at. */
  datatype History = History(start: nat, pushed: seq<Desc>, submitted: nat, executed: seq<Desc>, seen: nat)

  datatype Action =
    | PushAction(d: Desc)
    | SubmitAction(doorbell: word)   // publish HEAD and ring; the device makes progress later
    | SubmitDrain(doorbell: word)    // the emulator: the doorbell write itself drains the ring
    | SyncAction
    | RetireAction                   // the device executes the descriptor at its tail
    | WriteAction(mem: seq<byte>)    // the host writes unified memory: operands, framebuffers

  function Entries(s: System): nat { EntryCount(s.dev.cmdq.size) }

  ghost predicate Geometry(s: System) {
    && RingOk(s.dev) && s.host.umemBytes <= |s.dev.mem| && s.host.base + s.host.size < W32
    && s.host.base == s.dev.cmdq.base && s.host.size == s.dev.cmdq.size
    && s.host.base + 32 * Entries(s) <= s.host.umemBytes
  }

  ghost predicate Indices(s: System, h: History) {
    var n := Entries(s);
    && h.seen <= |h.executed| <= h.submitted <= |h.pushed| < h.seen + n
    && s.dev.cmdq.head == Slot(n, h.start + h.submitted)
    && s.dev.cmdq.tail == Slot(n, h.start + |h.executed|)
    && s.host.cachedHead == Slot(n, h.start + |h.pushed|)
    && s.host.cachedTail == Slot(n, h.start + h.seen)
  }

  ghost predicate Delivered(h: History) {
    |h.executed| <= |h.pushed| && h.executed == h.pushed[..|h.executed|]
  }

  ghost predicate Waiting(s: System, h: History)
    requires RingOk(s.dev)
  {
    forall k | |h.executed| <= k < |h.pushed| ::
      RingDesc(s.dev, Slot(Entries(s), h.start + k)) == h.pushed[k] && Safe(s.dev, h.pushed[k])
  }

  /** The ring between tail and the host's head holds exactly the descriptors not yet
      executed, in push order, and never more than n - 1 of them. */
  ghost predicate Inv(s: System, h: History) {
    Geometry(s) && Indices(s, h) && Delivered(h) && Waiting(s, h)
  }

  /** Descriptors, and what the host writes besides them, keep inside the memory and off the
      ring; the host synchronises only when it has submitted everything it pushed. */
  ghost predicate Enabled(s: System, h: History, a: Action) {
    match a
    case PushAction(d) => Safe(s.dev, d)
    case SyncAction => h.submitted == |h.pushed|
    case RetireAction => s.dev.cmdq.tail != s.dev.cmdq.head
    case WriteAction(mem) => SameInside(s.dev.mem, mem, s.dev.cmdq.base, RingEnd(s.dev))
    case _ => true
  }

  function PublishHead(s: System, doorbell: word): Emu {
    var e := RegWrite(s.dev, CmdqHead, s.host.cachedHead);
    e.(cmdq := e.cmdq.(doorbell := doorbell))
  }

  ghost function Next(s: System, a: Action): System {
    match a
    case PushAction(d) =>
      if !PushFits(s.host, s.dev.mem) then s
      else var r := Push(s.host, s.dev.mem, d); System(r.h, s.dev.(mem := r.mem))
    case SubmitAction(v) => s.(dev := PublishHead(s, v))
    case SubmitDrain(v) => if SubmitFits(s.host, s.dev, v) then s.(dev := Submit(s.host, s.dev, v)) else s
    case SyncAction => s.(host := Sync(s.host, s.dev.cmdq))
    case RetireAction => if RetireFits(s.dev) then s.(dev := Retire(s.dev)) else s
    case WriteAction(mem) => s.(dev := s.dev.(mem := mem))
  }

  ghost function Record(s: System, h: History, a: Action): History {
    hide Push, RetireFits, DrainFits, Executed, EntryCount, QueueStatus;
    match a
    case PushAction(d) =>
      if PushFits(s.host, s.dev.mem) && Push(s.host, s.dev.mem, d).code == 0
      then h.(pushed := h.pushed + [d]) else h
    case SubmitAction(v) => h.(submitted := |h.pushed|)
    case SubmitDrain(v) =>
      var b := PublishHead(s, v);
      if SubmitFits(s.host, s.dev, v) && Rings(s.dev, v)
      then h.(submitted := |h.pushed|, executed := h.executed + Executed(Started(b), EntryCount(b.cmdq.size)))
      else h.(submitted := |h.pushed|)
    case SyncAction => h.(seen := |h.executed|)
    case RetireAction =>
      if RetireFits(s.dev) then h.(executed := h.executed + [TailDesc(s.dev)]) else h
    case WriteAction(mem) => h
  }

  // ------------------------------------------------------------------ push

  lemma {:induction false} WroteWords(mem: seq<byte>, off: nat, words: seq<word>, k: nat)
    requires off + 4 * |words| <= |mem| && k < |words|
    ensures Read32(WriteWords(mem, off, words), off + 4 * k) == words[k]
    decreases |words|
  {
    hide Read32, Write32;
    var m := Write32(mem, off, words[0]);
    if k == 0 {
      WriteWordsInside(m, off + 4, words[1..]);
      SameRead(m, WriteWords(m, off + 4, words[1..]), off + 4, off + 4 * |words|, off);
      ReadWrite(mem, off, words[0], off);
    } else {
      WroteWords(m, off + 4, words[1..], k - 1);
    }
  }

  /** A stored descriptor reads back, and memory outside its 32 bytes is untouched. */
  lemma WroteDesc(mem: seq<byte>, off: nat, d: Desc)
    requires off + 32 <= |mem|
    ensures ReadDesc(WriteDesc(mem, off, d), off) == d
    ensures SameOutside(mem, WriteDesc(mem, off, d), off, off + 32)
  {
    hide Read32, WriteWords;
    var words := [d.opcode, d.flags, d.src0, d.src1, d.src2, d.dst0, d.arg0, d.arg1];
    WriteWordsInside(mem, off, words);
    WroteWords(mem, off, words, 0); WroteWords(mem, off, words, 1);
    WroteWords(mem, off, words, 2); WroteWords(mem, off, words, 3);
    WroteWords(mem, off, words, 4); WroteWords(mem, off, words, 5);
    WroteWords(mem, off, words, 6); WroteWords(mem, off, words, 7);
  }

  lemma RingFull(n: nat, start: nat, pushed: nat, seen: nat)
    requires n > 0 && seen <= pushed < seen + n
    ensures Slot(n, start + pushed + 1) == Slot(n, start + seen) <==> pushed + 1 == seen + n
  {
    hide Slot;
    if pushed + 1 < seen + n {
      SlotAhead(n, start + seen, start + pushed + 1);
    } else {
      SlotAdd(n, start + seen, n);
    }
  }

  lemma NextHead(h: Host, q: Cmdq, p: nat)
    requires h.size == q.size && h.cachedHead == Slot(EntryCount(h.size), p)
    ensures Wrap(h.cachedHead + 1) % EntryCount(h.size) == Slot(EntryCount(h.size), p + 1)
  {
    hide Slot, Wrap, EntryCount;
    SlotNext(EntryCount(h.size), p);
    NextTail(q.(tail := h.cachedHead));
  }

  lemma PushRoom(s: System)
    requires Geometry(s) && s.host.cachedHead < Entries(s)
    ensures HostSlot(s.host, s.host.cachedHead) == s.host.base + 32 * s.host.cachedHead
    ensures Entries(s) > 1 ==> s.host.base + 32 * s.host.cachedHead + 32 <= HostLimit(s.host)
  {
    hide ReadDesc, HostSlot, BufferEnabled;
    HostSlotIndex(s.host);
  }

  /** A push returns ENOSPC exactly when the ring looks full to the host, and otherwise
      stores into the slot of its cached head. */
  lemma PushOutcome(s: System, h: History, d: Desc)
    requires Inv(s, h)
    ensures PushFits(s.host, s.dev.mem)
    ensures var r, n := Push(s.host, s.dev.mem, d), Entries(s);
      if |h.pushed| + 1 == h.seen + n then r == PushResult(s.host, s.dev.mem, ENOSPC)
      else
        && s.host.base + 32 * s.host.cachedHead + 32 <= |s.dev.mem|
        && r == PushResult(s.host.(cachedHead := Slot(n, h.start + |h.pushed| + 1)),
                           WriteDesc(s.dev.mem, s.host.base + 32 * s.host.cachedHead, d), 0)
  {
    hide ReadDesc, Slot, WriteDesc, Safe, EntryCount, HostSlot, Wrap, Waiting, Limit;
    RingFull(Entries(s), h.start, |h.pushed|, h.seen);
    NextHead(s.host, s.dev.cmdq, h.start + |h.pushed|);
    PushRoom(s);
  }

  lemma HostSlotIndex(h: Host)
    requires h.cachedHead < EntryCount(h.size) && h.base + 32 * h.cachedHead < W32
    ensures HostSlot(h, h.cachedHead) == h.base + 32 * h.cachedHead
  {
    hide EntryCount;
    DivModUnique(h.cachedHead, EntryCount(h.size), 0, h.cachedHead);
    DivModUnique(h.base + 32 * h.cachedHead, W32, 0, h.base + 32 * h.cachedHead);
  }

  lemma PushWaiting(s: System, h: History, d: Desc, mem: seq<byte>)
    requires Inv(s, h) && Safe(s.dev, d) && |h.pushed| + 1 < h.seen + Entries(s)
    requires var off := s.host.base + 32 * s.host.cachedHead;
      off + 32 <= |s.dev.mem| && mem == WriteDesc(s.dev.mem, off, d)
    ensures RingOk(s.dev.(mem := mem))
    ensures Waiting(s.(dev := s.dev.(mem := mem)), h.(pushed := h.pushed + [d]))
  {
    hide ReadDesc, Slot, WriteDesc, Safe, EntryCount, Limit;
    var n, p, off := Entries(s), |h.pushed|, s.host.base + 32 * s.host.cachedHead;
    var e, all := s.dev.(mem := mem), h.pushed + [d];
    WroteDesc(s.dev.mem, off, d);
    forall k | |h.executed| <= k < |all|
      ensures RingDesc(e, Slot(n, h.start + k)) == all[k] && Safe(e, all[k])
    {
      SafeDepends(s.dev, e, all[k]);
      if k < p {
        SlotAhead(n, h.start + k, h.start + p);
        SameDesc(s.dev.mem, mem, off, off + 32, s.dev.cmdq.base + 32 * Slot(n, h.start + k));
      }
    }
  }

  /** A push that fits stores the descriptor in a slot no waiting descriptor occupies. */
  lemma PushKeeps(s: System, h: History, d: Desc)
    requires Inv(s, h) && Safe(s.dev, d)
    ensures Inv(Next(s, PushAction(d)), Record(s, h, PushAction(d)))
  {
    hide ReadDesc, Slot, WriteDesc, Safe, EntryCount, HostSlot, Push, PushFits, Waiting, Limit, HostLimit;
    PushOutcome(s, h, d);
    if |h.pushed| + 1 < h.seen + Entries(s) {
      var r := Push(s.host, s.dev.mem, d);
      PushWaiting(s, h, d, r.mem);
      WaitingIgnoresHost(s, r.h, r.mem, h.(pushed := h.pushed + [d]));
    }
  }

  lemma WaitingIgnoresHost(s: System, host: Host, mem: seq<byte>, h: History)
    requires RingOk(s.dev.(mem := mem)) && Waiting(s.(dev := s.dev.(mem := mem)), h)
    ensures Waiting(System(host, s.dev.(mem := mem)), h)
  {
    hide ReadDesc, Slot, Safe, EntryCount, Limit;
  }

  lemma SubmitKeeps(s: System, h: History, v: word)
    requires Inv(s, h)
    ensures Inv(Next(s, SubmitAction(v)), Record(s, h, SubmitAction(v)))
  {
    hide ReadDesc, Slot, EntryCount, QueueStatus, Safe;
    var t := Next(s, SubmitAction(v));
    Published(s, v);
    forall k | |h.executed| <= k < |h.pushed| ensures Safe(t.dev, h.pushed[k]) {
      SafeDepends(s.dev, t.dev, h.pushed[k]);
    }
  }

  lemma Published(s: System, v: word)
    ensures var e := PublishHead(s, v);
      e == s.dev.(cmdq := s.dev.cmdq.(head := s.host.cachedHead, doorbell := v, status := e.cmdq.status))
  {
  }

  /** Synchronising keeps the queue consistent exactly when nothing pushed is unsubmitted:
      otherwise the reloaded head forgets the pushes since the last submission. */
  lemma SyncKeeps(s: System, h: History)
    requires Inv(s, h)
    ensures Inv(Next(s, SyncAction), Record(s, h, SyncAction)) <==> h.submitted == |h.pushed|
  {
    hide ReadDesc, Slot, EntryCount, Safe, HostLimit;
    var n := Entries(s);
    SlotAhead(n, h.start + h.submitted, h.start + |h.pushed|);
  }

  /** What a synchronisation forgets: the queue goes on as if the pushes since the last
      submission had never been made. */
  lemma SyncForgets(s: System, h: History)
    requires Inv(s, h)
    ensures Inv(Next(s, SyncAction), h.(pushed := h.pushed[..h.submitted], seen := |h.executed|))
  {
    hide ReadDesc, Slot, EntryCount, Safe, HostLimit, Limit;
  }

  /** So the first of them is lost: the next push succeeds and overwrites its slot. */
  lemma LostPush(s: System, h: History, d: Desc)
    requires Inv(s, h) && h.submitted < |h.pushed|
    ensures var t, slot := Next(s, SyncAction), Slot(Entries(s), h.start + h.submitted);
      && RingDesc(s.dev, slot) == h.pushed[h.submitted]
      && PushFits(t.host, t.dev.mem) && Push(t.host, t.dev.mem, d).code == 0
      && s.dev.cmdq.base + 32 * slot + 32 <= |Push(t.host, t.dev.mem, d).mem|
      && RingDesc(t.dev.(mem := Push(t.host, t.dev.mem, d).mem), slot) == d
  {
    hide ReadDesc, Slot, EntryCount, Safe, HostLimit, Limit, Push, PushFits, WriteDesc;
    var t, g := Next(s, SyncAction), h.(pushed := h.pushed[..h.submitted], seen := |h.executed|);
    SyncForgets(s, h);
    PushOutcome(t, g, d);
    WroteDesc(t.dev.mem, t.host.base + 32 * t.host.cachedHead, d);
  }

  /** The descriptor at the tail is the oldest one waiting. */
  lemma OldestWaits(s: System, h: History)
    requires Inv(s, h) && s.dev.cmdq.tail != s.dev.cmdq.head
    ensures |h.executed| < h.submitted
    ensures RingDesc(s.dev, s.dev.cmdq.tail) == h.pushed[|h.executed|] && Safe(s.dev, h.pushed[|h.executed|])
  {
    hide ReadDesc, Slot, EntryCount, Safe, Limit;
    var n, r := Entries(s), |h.executed|;
    SlotAhead(n, h.start + r, h.start + h.submitted);
    assert RingDesc(s.dev, Slot(n, h.start + r)) == h.pushed[r];
  }

  /** Marking the oldest slot leaves the younger ones as they were. */
  lemma YoungerWait(s: System, h: History, r: Emu)
    requires Inv(s, h) && |h.executed| < |h.pushed| && SameRing(s.dev, r) && RingOk(r)
    requires forall k: nat | k < Entries(s) :: RingDesc(r, k) == Mark(RingDesc(s.dev, k), k == s.dev.cmdq.tail)
    ensures Waiting(s.(dev := r), h.(executed := h.executed + [h.pushed[|h.executed|]]))
  {
    hide ReadDesc, Slot, EntryCount, Safe, Limit, DoneFlags;
    var n, x := Entries(s), |h.executed|;
    forall k | x + 1 <= k < |h.pushed|
      ensures RingDesc(r, Slot(n, h.start + k)) == h.pushed[k] && Safe(r, h.pushed[k])
    {
      SafeDepends(s.dev, r, h.pushed[k]);
      SlotAhead(n, h.start + x, h.start + k);
    }
  }

  lemma RetireKeeps(s: System, h: History)
    requires Inv(s, h) && s.dev.cmdq.tail != s.dev.cmdq.head
    ensures RetireFits(s.dev)
    ensures Inv(Next(s, RetireAction), Record(s, h, RetireAction))
  {
    hide ReadDesc, Slot, EntryCount, Safe, RetireFits, Retire, TailDesc, Mark, Waiting, Limit;
    OldestWaits(s, h);
    RetireInRing(s.dev);
    var r := |h.executed|;
    YoungerWait(s, h, Retire(s.dev));
    SlotAdd(Entries(s), h.start + r, 1);
    assert h.pushed[..r] + [h.pushed[r]] == h.pushed[..r + 1];
    assert h.start + r + 1 == h.start + |Record(s, h, RetireAction).executed|;
  }

  /** Host writes off the ring leave everything that waits as it is. */
  lemma WriteKeeps(s: System, h: History, mem: seq<byte>)
    requires Inv(s, h) && SameInside(s.dev.mem, mem, s.dev.cmdq.base, RingEnd(s.dev))
    ensures Inv(Next(s, WriteAction(mem)), Record(s, h, WriteAction(mem)))
  {
    hide ReadDesc, Slot, EntryCount, Safe, Limit, SameInside;
    var e := s.dev.(mem := mem);
    assert |mem| == |s.dev.mem| by { SameLength(s.dev.mem, mem, s.dev.cmdq.base, RingEnd(s.dev)); }
    forall k | |h.executed| <= k < |h.pushed|
      ensures RingDesc(e, Slot(Entries(s), h.start + k)) == h.pushed[k] && Safe(e, h.pushed[k])
    {
      SafeDepends(s.dev, e, h.pushed[k]);
      KeptDesc(s.dev.mem, mem, s.dev.cmdq.base, RingEnd(s.dev), s.dev.cmdq.base + 32 * Slot(Entries(s), h.start + k));
    }
  }

  lemma SameLength(a: seq<byte>, b: seq<byte>, lo: nat, hi: nat)
    requires SameInside(a, b, lo, hi)
    ensures |a| == |b|
  {
  }

  lemma SubmitIs(s: System, v: word)
    ensures var b := PublishHead(s, v);
      && (Rings(s.dev, v) ==> SubmitFits(s.host, s.dev, v) == DrainFits(Started(b), EntryCount(b.cmdq.size)))
      && (Rings(s.dev, v) && SubmitFits(s.host, s.dev, v) ==> Submit(s.host, s.dev, v) == Process(b))
      && (!Rings(s.dev, v) ==> SubmitFits(s.host, s.dev, v) && Submit(s.host, s.dev, v) == WithQueue(b, b.cmdq))
  {
    hide Process, DrainFits, Started, RunNpu, RunClear, RunDraw, QueueStatus, EntryCount;
  }

  lemma PendingAreSafe(s: System, h: History)
    requires Inv(s, h) && h.submitted == |h.pushed|
    ensures var n, m := Entries(s), |h.pushed| - |h.executed|;
      && Steps(s.dev.cmdq, n) == m && PendingSafe(s.dev, m)
      && forall k: nat | k < m :: RingDesc(s.dev, SlotAt(n, s.dev.cmdq.tail, k)) == h.pushed[|h.executed| + k]
  {
    hide ReadDesc, Slot, EntryCount, Safe, Limit;
    var n, r := Entries(s), |h.executed|;
    SlotAhead(n, h.start + r, h.start + h.submitted);
    forall k: nat | k < |h.pushed| - r
      ensures RingDesc(s.dev, SlotAt(n, s.dev.cmdq.tail, k)) == h.pushed[r + k]
      ensures Safe(s.dev, RingDesc(s.dev, SlotAt(n, s.dev.cmdq.tail, k)))
    {
      SlotAdd(n, h.start + r, k);
      assert h.start + (r + k) == h.start + r + k;
    }
  }

  /** Ringing the emulator's doorbell runs everything that is waiting. */
  lemma DrainAll(s: System, h: History, log: seq<Desc>, r: Emu)
    requires Inv(s, h) && h.submitted == |h.pushed|
    requires DrainedBy(s.dev, r, log, |h.pushed| - |h.executed|)
    ensures h.executed + log == h.pushed
    ensures Inv(s.(dev := r), h.(executed := h.executed + log))
  {
    hide ReadDesc, Slot, EntryCount, Safe, Limit, DoneFlags;
    PendingAreSafe(s, h);
    assert h.executed + log == h.pushed;
    SlotAdd(Entries(s), h.start + |h.executed|, |h.pushed| - |h.executed|);
    assert h.start + |h.executed| + (|h.pushed| - |h.executed|) == h.start + |h.pushed|;
  }

  lemma StatusIgnored(s: System, h: History, q: Cmdq)
    requires Inv(s, h) && q == s.dev.cmdq.(status := q.status)
    ensures Inv(s.(dev := s.dev.(cmdq := q)), h)
  {
    hide ReadDesc, Slot, EntryCount, Safe, Limit;
    forall k | |h.executed| <= k < |h.pushed| ensures Safe(s.dev.(cmdq := q), h.pushed[k]) {
      SafeDepends(s.dev, s.dev.(cmdq := q), h.pushed[k]);
    }
  }

  lemma SubmitDrainKeeps(s: System, h: History, v: word)
    requires Inv(s, h)
    ensures SubmitFits(s.host, s.dev, v)
    ensures Inv(Next(s, SubmitDrain(v)), Record(s, h, SubmitDrain(v)))
    ensures Rings(s.dev, v) ==> Record(s, h, SubmitDrain(v)).executed == h.pushed
  {
    hide ReadDesc, Slot, EntryCount, Safe, Limit, SubmitFits, Submit, Process, DrainFits, Started, Executed,
         PublishHead, Rings, Indices, Waiting, Delivered, DrainedBy, CountedAll, QueueStatus;
    SubmitIs(s, v);
    SubmitKeeps(s, h, v);
    var b, g := PublishHead(s, v), h.(submitted := |h.pushed|);
    var t := s.(dev := b);
    assert Inv(t, g);
    if Rings(s.dev, v) {
      PendingAreSafe(t, g);
      ProcessInRing(b);
      DrainAll(t, g, Executed(Started(b), EntryCount(b.cmdq.size)), Process(b));
    } else {
      StatusIgnored(t, g, WithQueue(b, b.cmdq).cmdq);
    }
  }

  // ------------------------------------------------------------------ whole runs

  lemma StepKeeps(s: System, h: History, a: Action)
    requires Inv(s, h) && Enabled(s, h, a)
    ensures Inv(Next(s, a), Record(s, h, a))
  {
    hide Inv, Next, Record, Safe;
    match a
    case PushAction(d) => PushKeeps(s, h, d);
    case SubmitAction(v) => SubmitKeeps(s, h, v);
    case SubmitDrain(v) => SubmitDrainKeeps(s, h, v);
    case SyncAction => SyncKeeps(s, h);
    case RetireAction => RetireKeeps(s, h);
    case WriteAction(mem) => WriteKeeps(s, h, mem);
  }

  ghost predicate RunEnabled(s: System, h: History, acts: seq<Action>)
    decreases |acts|
  {
    acts == [] || (Enabled(s, h, acts[0]) && RunEnabled(Next(s, acts[0]), Record(s, h, acts[0]), acts[1..]))
  }

  ghost function Run(s: System, acts: seq<Action>): System
    decreases |acts|
  {
    if acts == [] then s else Run(Next(s, acts[0]), acts[1..])
  }

  ghost function RunRecord(s: System, h: History, acts: seq<Action>): History
    decreases |acts|
  {
    if acts == [] then h else RunRecord(Next(s, acts[0]), Record(s, h, acts[0]), acts[1..])
  }

  /** Over every run: what the device has executed is exactly the descriptors pushed so
      far, in order and once each, up to some point; the rest wait untouched in the ring,
      at most n - 1 of them; and when tail equals head everything submitted has run. */
  lemma {:induction false} FifoDelivery(s: System, h: History, acts: seq<Action>)
    requires Inv(s, h) && RunEnabled(s, h, acts)
    ensures var t, g := Run(s, acts), RunRecord(s, h, acts);
      && Inv(t, g)
      && g.executed <= g.pushed && |g.pushed| - |g.executed| < Entries(t)
      && (t.dev.cmdq.tail == t.dev.cmdq.head ==> g.executed == g.pushed[..g.submitted])
    decreases |acts|
  {
    hide Next, Record, Enabled, Geometry, Waiting, Slot, EntryCount;
    if acts == [] {
      SlotAhead(Entries(s), h.start + |h.executed|, h.start + h.submitted);
    } else {
      StepKeeps(s, h, acts[0]);
      FifoDelivery(Next(s, acts[0]), Record(s, h, acts[0]), acts[1..]);
    }
  }

  /** A freshly synchronised host over an idle ring is a starting point for such runs. */
  lemma StartsEmpty(host: Host, dev: Emu)
    requires RingOk(dev) && dev.cmdq.head == dev.cmdq.tail && host.umemBytes <= |dev.mem|
    requires dev.cmdq.base + dev.cmdq.size < W32
    requires dev.cmdq.base + 32 * EntryCount(dev.cmdq.size) <= host.umemBytes
    ensures Inv(System(Sync(host, dev.cmdq), dev), History(dev.cmdq.tail, [], 0, [], 0))
  {
    var n := EntryCount(dev.cmdq.size);
    DivModUnique(dev.cmdq.tail, n, 0, dev.cmdq.tail);
  }
}
