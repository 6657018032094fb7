/** The AXI read channels between the fetch engines, the arbiter and the memory. */
module AxiTypes {
  import opened Bits

  const RESP_OKAY: nat := 0

  const STATUS_BUSY: word := 1
  const STATUS_ERROR: word := 2
  const STATUS_IDLE: word := 4

  /** A read-address channel as its master drives it; `len` is the number of beats minus one. */
  datatype ReadAddress = ReadAddress(addr: word, len: nat, valid: bool)

  /** A read-data channel as its slave drives it. */
  datatype ReadData = ReadData(valid: bool, data: word, resp: nat, last: bool)

  /** The words the memory holds, by byte address. */
  type Memory = nat -> word

  /** The `n` words a burst from `addr` returns. */
  function Burst(mem: Memory, addr: nat, n: nat): (r: seq<word>)
    ensures |r| == n
  {
    seq(n, k requires 0 <= k < n => mem(addr + 4 * k))
  }

  function Blank(): seq<word> { seq(8, _ => 0) }

  /** One lane of a fetched block replaced; an index past the end stores nothing. */
  function SetWord(data: seq<word>, k: nat, w: word): (d: seq<word>)
    ensures |d| == |data|
  {
    if k < |data| then data[k := w] else data
  }
}
