/** Two read clients on one memory port: whole bursts, one at a time, descriptors first. */
module AxiArbiter {
  import opened AxiTypes

  datatype Arbiter = Arbiter(active: bool, ownerDesc: bool)

  function Reset(): Arbiter { Arbiter(false, true) }

  predicate GrantDesc(s: Arbiter, desc: ReadAddress) { !s.active && desc.valid }

  predicate GrantNpu(s: Arbiter, desc: ReadAddress, npu: ReadAddress) {
    !s.active && !desc.valid && npu.valid
  }

  /** The combinational outputs: the address shown to memory, the two address readys, the
      two data channels, and the data ready shown to memory. */
  function MemoryAddress(s: Arbiter, desc: ReadAddress, npu: ReadAddress): ReadAddress {
    var from := if GrantDesc(s, desc) then desc else npu;
    from.(valid := GrantDesc(s, desc) || GrantNpu(s, desc, npu))
  }

  predicate DescReady(s: Arbiter, desc: ReadAddress, arready: bool) {
    GrantDesc(s, desc) && arready
  }

  predicate NpuReady(s: Arbiter, desc: ReadAddress, npu: ReadAddress, arready: bool) {
    GrantNpu(s, desc, npu) && arready
  }

  function DescData(s: Arbiter, r: ReadData): ReadData {
    r.(valid := s.active && s.ownerDesc && r.valid)
  }

  function NpuData(s: Arbiter, r: ReadData): ReadData {
    r.(valid := s.active && !s.ownerDesc && r.valid)
  }

  predicate MemoryDataReady(s: Arbiter, descReady: bool, npuReady: bool) {
    s.active && if s.ownerDesc then descReady else npuReady
  }

  datatype Inputs = Inputs(
    resetn: bool, desc: ReadAddress, npu: ReadAddress, descReady: bool, npuReady: bool, arready: bool, r: ReadData)

  function Next(s: Arbiter, i: Inputs): Arbiter {
    if !i.resetn then Reset()
    else if !s.active then
      if GrantDesc(s, i.desc) && i.arready then Arbiter(true, true)
      else if GrantNpu(s, i.desc, i.npu) && i.arready then Arbiter(true, false)
      else s
    else if i.r.valid && MemoryDataReady(s, i.descReady, i.npuReady) && i.r.last then s.(active := false)
    else s
  }

  class ArbiterModule {
    var active: bool
    var ownerDesc: bool

    ghost function State(): Arbiter
      reads this
    {
      Arbiter(active, ownerDesc)
    }

    constructor ()
      ensures State() == Reset()
    {
      active, ownerDesc := false, true;
    }

    method Clock(i: Inputs)
      modifies this
      ensures State() == Next(old(State()), i)
    {
      var grantDesc := !active && i.desc.valid;
      var grantNpu := !active && !i.desc.valid && i.npu.valid;
      if !i.resetn {
        active, ownerDesc := false, true;
      } else if !active {
        if grantDesc && i.arready {
          active, ownerDesc := true, true;
        } else if grantNpu && i.arready {
          active, ownerDesc := true, false;
        }
      } else if i.r.valid && (if ownerDesc then i.descReady else i.npuReady) && i.r.last {
        active := false;
      }
    }
  }
}
