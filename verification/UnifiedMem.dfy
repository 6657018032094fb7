/** Byte-addressed memory read and written in 32-bit little-endian words. */
module UnifiedMem {
  import opened Bits

  function ByteOf(v: word, k: nat): byte
    requires k < 4
  {
    match k
    case 0 => v % 256
    case 1 => v / 0x100 % 256
    case 2 => v / 0x1_0000 % 256
    case _ => v / 0x100_0000
  }

  function WordOf(b0: byte, b1: byte, b2: byte, b3: byte): word {
    b0 + 0x100 * b1 + 0x1_0000 * b2 + 0x100_0000 * b3
  }

  function Read32(mem: seq<byte>, off: nat): word
    requires off + 4 <= |mem|
  {
    WordOf(mem[off], mem[off + 1], mem[off + 2], mem[off + 3])
  }

  function Write32(mem: seq<byte>, off: nat, v: word): (r: seq<byte>)
    requires off + 4 <= |mem|
    ensures |r| == |mem|
  {
    mem[off := ByteOf(v, 0)][off + 1 := ByteOf(v, 1)][off + 2 := ByteOf(v, 2)][off + 3 := ByteOf(v, 3)]
  }

  /** `after` differs from `before` at most inside [lo, hi). */
  ghost predicate SameOutside(before: seq<byte>, after: seq<byte>, lo: int, hi: int) {
    && |after| == |before|
    && forall i | 0 <= i < |before| && !(lo <= i < hi) :: after[i] == before[i]
  }

  lemma SplitWord(v: word)
    ensures WordOf(ByteOf(v, 0), ByteOf(v, 1), ByteOf(v, 2), ByteOf(v, 3)) == v
  {
    var q1 := v / 0x100;
    var q2 := q1 / 0x100;
    var q3 := q2 / 0x100;
    DivModUnique(v, 0x1_0000, q2, 0x100 * (q1 % 0x100) + v % 0x100);
    DivModUnique(v, 0x100_0000, q3, 0x1_0000 * (q2 % 0x100) + 0x100 * (q1 % 0x100) + v % 0x100);
  }

  lemma JoinBytes(b0: byte, b1: byte, b2: byte, b3: byte)
    ensures var v := WordOf(b0, b1, b2, b3);
      ByteOf(v, 0) == b0 && ByteOf(v, 1) == b1 && ByteOf(v, 2) == b2 && ByteOf(v, 3) == b3
  {
    var v := WordOf(b0, b1, b2, b3);
    DivModUnique(v, 0x100, b1 + 0x100 * b2 + 0x1_0000 * b3, b0);
    DivModUnique(v, 0x1_0000, b2 + 0x100 * b3, b0 + 0x100 * b1);
    DivModUnique(b1 + 0x100 * b2 + 0x1_0000 * b3, 0x100, b2 + 0x100 * b3, b1);
    DivModUnique(v, 0x100_0000, b3, b0 + 0x100 * b1 + 0x1_0000 * b2);
    DivModUnique(b2 + 0x100 * b3, 0x100, b3, b2);
  }

  /** A written word reads back, and a word that does not overlap it is unchanged. */
  lemma ReadWrite(mem: seq<byte>, off: nat, v: word, at: nat)
    requires off + 4 <= |mem| && at + 4 <= |mem|
    ensures at == off ==> Read32(Write32(mem, off, v), at) == v
    ensures at + 4 <= off || off + 4 <= at ==> Read32(Write32(mem, off, v), at) == Read32(mem, at)
  {
    SplitWord(v);
  }

  lemma WriteStaysInside(mem: seq<byte>, off: nat, v: word)
    requires off + 4 <= |mem|
    ensures SameOutside(mem, Write32(mem, off, v), off, off + 4)
  {
  }

  lemma SameRead(before: seq<byte>, after: seq<byte>, lo: int, hi: int, at: nat)
    requires SameOutside(before, after, lo, hi) && at + 4 <= |before|
    requires at + 4 <= lo || hi <= at
    ensures Read32(after, at) == Read32(before, at)
  {
  }
}
