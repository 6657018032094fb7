/** The host side of the command ring, and first-in first-out delivery over whole runs. */
module CmdqHost {
  import opened Bits
  import opened EmuSpec
  import Emulator
  import EmuReports

  const ENOSPC: int := -28
  const ERANGE: int := -34

  datatype Host = Host(umemBytes: word, base: word, size: word, cachedHead: word, cachedTail: word)

  function HostLimit(h: Host): nat {
    if h.umemBytes < Wrap(h.base + h.size) then h.umemBytes else Wrap(h.base + h.size)
  }

  function HostSlot(h: Host, slot: word): word {
    Wrap(h.base + 32 * (slot % EntryCount(h.size)))
  }

  predicate LooksFull(h: Host) { Wrap(h.cachedHead + 1) % EntryCount(h.size) == h.cachedTail }

  /** `umem_bytes` of the memory are mapped, and the slot to be filled does not run over the
      top of the 32-bit range: there the sum in the range check wraps and the
      C store is undefined. */
  predicate PushFits(h: Host, mem: seq<byte>) {
    h.umemBytes <= |mem| && (LooksFull(h) || HostSlot(h, h.cachedHead) + 32 < W32)
  }

  function WriteDesc(mem: seq<byte>, off: nat, d: Desc): (r: seq<byte>)
    requires off + 32 <= |mem|
    ensures |r| == |mem|
  {
    WriteWords(mem, off, [d.opcode, d.flags, d.src0, d.src1, d.src2, d.dst0, d.arg0, d.arg1])
  }

  datatype PushResult = PushResult(h: Host, mem: seq<byte>, code: int)

  function Push(h: Host, mem: seq<byte>, d: Desc): PushResult
    requires PushFits(h, mem)
  {
    var next := Wrap(h.cachedHead + 1) % EntryCount(h.size);
    if LooksFull(h) then PushResult(h, mem, ENOSPC)
    else if HostSlot(h, h.cachedHead) + 32 > HostLimit(h) then PushResult(h, mem, ERANGE)
    else PushResult(h.(cachedHead := next), WriteDesc(mem, HostSlot(h, h.cachedHead), d), 0)
  }

  function Sync(h: Host, q: Cmdq): Host {
    h.(base := q.base, size := q.size, cachedHead := q.head, cachedTail := q.tail)
  }

  function SubmitFits(h: Host, e: Emu, doorbell: word): bool {
    WriteFits(RegWrite(e, CmdqHead, h.cachedHead), CmdqDoorbell, doorbell)
  }

  /** HEAD, then the doorbell; the emulator drains the ring inside the second write. */
  function Submit(h: Host, e: Emu, doorbell: word): Emu
    requires SubmitFits(h, e, doorbell)
  {
    RegWrite(RegWrite(e, CmdqHead, h.cachedHead), CmdqDoorbell, doorbell)
  }

  /** Both indices and the doorbell written back to zero. */
  function Restarted(e: Emu): Emu {
    var h := WithQueue(e, e.cmdq.(head := 0));
    var t := WithQueue(h, h.cmdq.(tail := 0));
    WithQueue(t, t.cmdq.(doorbell := 0))
  }

  class HostQueue {
    const dev: Emulator.Accel
    const umemBytes: word
    var base: word
    var size: word
    var cachedHead: word
    var cachedTail: word

    ghost predicate Valid()
      reads this, dev, dev.framebuffer, dev.unifiedMem
    {
      dev.Valid() && umemBytes <= UMEM_BYTES
    }

    ghost function State(): Host
      reads this
    {
      Host(umemBytes, base, size, cachedHead, cachedTail)
    }

    constructor (dev: Emulator.Accel, umemBytes: word)
      requires dev.Valid()
      ensures this.dev == dev
      ensures State() == Host(umemBytes, dev.cmdq.base, dev.cmdq.size, dev.cmdq.head, dev.cmdq.tail)
    {
      this.dev, this.umemBytes := dev, umemBytes;
      base, size, cachedHead, cachedTail := 0, 0, 0, 0;
      new;
      SyncRegs();
    }

    /** Reload ring geometry and both indices from the device registers. */
    method SyncRegs()
      requires dev.Valid()
      modifies this
      ensures State() == Sync(old(State()), dev.cmdq)
    {
      base, size := dev.cmdq.base, dev.cmdq.size;
      cachedHead, cachedTail := dev.cmdq.head, dev.cmdq.tail;
    }

    method PushDesc(d: Desc) returns (code: int)
      requires Valid() && PushFits(State(), dev.unifiedMem[..])
      modifies this`cachedHead, dev.unifiedMem
      ensures var r := Push(old(State()), old(dev.unifiedMem[..]), d);
        State() == r.h && dev.unifiedMem[..] == r.mem && code == r.code
      ensures code == 0 || code == -28 || code == -34
      ensures Valid()
    {
      var entryCount := EntryCount(size);
      var next := Wrap(cachedHead + 1) % entryCount;
      if next == cachedTail {
        return ENOSPC;
      }
      var off := Wrap(base + 32 * (cachedHead % entryCount));
      if off + 32 > HostLimit(Host(umemBytes, base, size, cachedHead, cachedTail)) {
        return ERANGE;
      }
      StoreDesc(off, d);
      cachedHead := next;
      code := 0;
    }

    method StoreDesc(off: nat, d: Desc)
      requires dev.Valid() && off + 32 <= UMEM_BYTES
      modifies dev.unifiedMem
      ensures dev.unifiedMem[..] == WriteDesc(old(dev.unifiedMem[..]), off, d)
    {
      var words := [d.opcode, d.flags, d.src0, d.src1, d.src2, d.dst0, d.arg0, d.arg1];
      ghost var m := dev.unifiedMem[..];
      for k := 0 to 8
        invariant WriteWords(m, off, words) == WriteWords(dev.unifiedMem[..], off + 4 * k, words[k..])
      {
        dev.StoreWord(off + 4 * k, words[k]);
        assert words[k..][1..] == words[k + 1..];
      }
    }

    method SubmitDoorbell(doorbell: word)
      requires Valid() && SubmitFits(State(), dev.State(), doorbell)
      modifies dev, dev.framebuffer, dev.unifiedMem
      ensures Valid() && dev.State() == Submit(State(), old(dev.State()), doorbell)
      ensures State() == old(State())
    {
      dev.RegWrite(CmdqHead, cachedHead);
      dev.RegWrite(CmdqDoorbell, doorbell);
    }

    /** Clear the ring and restart both indices at zero; the host's copies are reloaded first,
        even if the ring then proves too large. */
    method Reset() returns (code: int)
      requires Valid() && (Wrap(dev.cmdq.base + dev.cmdq.size) <= umemBytes ==> dev.cmdq.base + dev.cmdq.size < W32)
      modifies this, dev, dev.framebuffer, dev.unifiedMem
      ensures var q := old(dev.cmdq);
        if Wrap(q.base + q.size) > umemBytes then
          code == ERANGE && dev.State() == old(dev.State()) && State() == Sync(old(State()), q)
        else
          && code == 0 && State() == Host(umemBytes, q.base, q.size, 0, 0)
          && dev.State() == Restarted(old(dev.State())).(mem := Zeroed(old(dev.unifiedMem[..]), q.base, q.size))
      ensures code == 0 || code == -34
      ensures code == 0 ==>
        && dev.cmdq.head == dev.cmdq.tail == dev.cmdq.doorbell == 0 && Bit(dev.cmdq.status, 2)
        && forall i | 0 <= i < UMEM_BYTES ::
             dev.unifiedMem[i] == if base <= i < base + size then 0 else old(dev.unifiedMem[i])
    {
      hide Restarted;
      SyncRegs();
      if Wrap(base + size) > umemBytes {
        return ERANGE;
      }
      ZeroRing();
      cachedHead, cachedTail := 0, 0;
      RestartedKeepsMem(old(dev.State()), dev.unifiedMem[..]);
      RestartIndices();
      RestartReports(old(dev.State()).(mem := dev.unifiedMem[..]));
      code := 0;
    }

    method RestartIndices()
      requires dev.Valid()
      modifies dev, dev.framebuffer, dev.unifiedMem
      ensures dev.Valid() && dev.State() == Restarted(old(dev.State()))
    {
      hide RegWrite, WriteFits, WithQueue;
      IndexWrites(dev.State(), 0);
      dev.RegWrite(CmdqHead, 0);
      IndexWrites(dev.State(), 0);
      dev.RegWrite(CmdqTail, 0);
      QuietDoorbell(dev.State());
      dev.RegWrite(CmdqDoorbell, 0);
    }

    method ZeroRing()
      requires dev.Valid() && base + size <= UMEM_BYTES
      modifies dev.unifiedMem
      ensures dev.unifiedMem[..] == Zeroed(old(dev.unifiedMem[..]), base, size)
    {
      ghost var m := dev.unifiedMem[..];
      forall i | base <= i < base + size {
        dev.unifiedMem[i] := 0;
      }
      assert dev.unifiedMem[..] == Zeroed(m, base, size);
    }
  }

  function Zeroed(mem: seq<byte>, base: nat, size: nat): seq<byte> {
    seq(|mem|, i requires 0 <= i < |mem| => if base <= i < base + size then 0 else mem[i])
  }

  lemma IndexWrites(e: Emu, v: word)
    ensures WriteFits(e, CmdqHead, v) && RegWrite(e, CmdqHead, v) == WithQueue(e, e.cmdq.(head := v))
    ensures WriteFits(e, CmdqTail, v) && RegWrite(e, CmdqTail, v) == WithQueue(e, e.cmdq.(tail := v))
  {
    hide RunNpu, RunClear, RunDraw, Process, DrainFits, QueueStatus, AfterNpuStart, Rings;
  }

  /** A doorbell write of zero starts no drain. */
  lemma QuietDoorbell(e: Emu)
    ensures WriteFits(e, CmdqDoorbell, 0) && RegWrite(e, CmdqDoorbell, 0) == WithQueue(e, e.cmdq.(doorbell := 0))
  {
    hide RunNpu, RunClear, RunDraw, Process, DrainFits, QueueStatus, AfterNpuStart;
  }

  /** After a restart both indices and the doorbell are zero, and the status says EMPTY. */
  lemma RestartReports(e: Emu)
    ensures var q := Restarted(e).cmdq;
      q.head == q.tail == q.doorbell == 0 && Bit(q.status, 2) && q.base == e.cmdq.base && q.size == e.cmdq.size
  {
    EmuReports.QueueStatusBits(Restarted(e).cmdq, false);
  }

  lemma RestartedKeepsMem(e: Emu, m: seq<byte>)
    ensures Restarted(e.(mem := m)) == Restarted(e).(mem := m)
  {
  }
}
