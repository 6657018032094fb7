/** The boot_try listing is a valid program: its label names never collide, its immediates
    fit and every jump reaches a label. */
module BootAssembles {
  import opened Bits
  import opened Rv32
  import opened Encoding
  import opened Assembler
  import opened AsmRun
  import opened SpiMacros
  import opened BootListing
  import opened BootAsm
  import BootPayload
  import PutHex

  // ------------------------------------------------------------------ blocks and families of names

  /** Label names are told apart by a few of their characters before anything else: the 1st,
      6th and 7th, and the 11th of the names of the payload loop. */
  type Family = (char, char, char, char)

  predicate Belongs(name: string, families: set<Family>) {
    && |name| > 6 && (name[0] == 'p' ==> |name| > 10)
    && (name[0], name[5], name[6], if name[0] == 'p' then name[10] else '-') in families
  }

  /** The labels jumped to from elsewhere than the macro that marks them. */
  predicate Shared(name: string) {
    || name == "main_loop" || name == "boot_fail" || name == "boot_bad_magic" || name == "boot_bad_range"
    || name == "boot_bad_size" || name == "boot_bad_entry" || name == "boot_bad_checksum"
    || name == "payload_loop" || name == "payload_lane1" || name == "payload_lane2" || name == "payload_lane3"
    || name == "payload_byte_done" || name == "payload_checksum_done"
  }

  lemma SharedNames()
    ensures Shared("main_loop") && Shared("boot_fail") && Shared("boot_bad_magic") && Shared("boot_bad_range")
    ensures Shared("boot_bad_size") && Shared("boot_bad_entry") && Shared("boot_bad_checksum")
    ensures Shared("payload_loop") && Shared("payload_lane1") && Shared("payload_lane2") && Shared("payload_lane3")
    ensures Shared("payload_byte_done") && Shared("payload_checksum_done")
  {
  }

  ghost predicate NamesIn(calls: seq<Call>, families: set<Family>) {
    forall c | c in calls :: c.Mark? ==> Belongs(c.name, families)
  }

  ghost predicate JumpsMarked(calls: seq<Call>) {
    forall c | c in calls :: c.Emit? && IsJump(c.i) ==> Mark(c.i.to) in calls || Shared(c.i.to)
  }

  /** A part of a program whose names are of these families, with at most `size` instructions. */
  ghost predicate Block(calls: seq<Call>, families: set<Family>, size: nat) {
    Distinct(calls) && NamesIn(calls, families) && Accepted(calls) && JumpsMarked(calls) && |CodeOf(calls)| <= size
  }

  /** Names marked in one part are not marked in the other. */
  ghost predicate Apart(a: seq<Call>, b: seq<Call>) {
    forall c, d | c in a && d in b :: c.Mark? && d.Mark? ==> c.name != d.name
  }

  lemma JoinApart(a: seq<Call>, fa: set<Family>, sa: nat, b: seq<Call>, fb: set<Family>, sb: nat)
    requires Block(a, fa, sa) && Block(b, fb, sb) && Apart(a, b)
    ensures Block(a + b, fa + fb, sa + sb)
  {
    hide CodeOf, Encodable, Shared;
    DistinctAppend(a, b);
    CodeOfAppend(a, b);
  }

  lemma Join(a: seq<Call>, fa: set<Family>, sa: nat, b: seq<Call>, fb: set<Family>, sb: nat)
    requires Block(a, fa, sa) && Block(b, fb, sb) && fa !! fb
    ensures Block(a + b, fa + fb, sa + sb)
  {
    hide CodeOf, Accepted, JumpsMarked, Distinct;
    forall c, d | c in a && d in b && c.Mark? && d.Mark? ensures c.name != d.name {
      assert Belongs(c.name, fa) && Belongs(d.name, fb);
    }
    JoinApart(a, fa, sa, b, fb, sb);
  }

  lemma OneInsn(c: Call)
    requires c.Load? ==> -0x800 <= c.imm < 0x800
    ensures |CallCode(c)| <= 1
  {
  }

  lemma {:induction false} SmallCode(calls: seq<Call>)
    requires forall c | c in calls :: c.Load? ==> -0x800 <= c.imm < 0x800
    ensures |CodeOf(calls)| <= |calls|
  {
    hide CallCode;
    if calls == [] {
    } else {
      var n := |calls| - 1;
      SmallCode(calls[..n]);
      assert calls[n] in calls;
      OneInsn(calls[n]);
    }
  }

  lemma Empty()
    ensures Block([], {}, 0)
  {
  }

  // ------------------------------------------------------------------ straight blocks

  lemma {:induction false} PutsBlock(text: string)
    requires forall i | 0 <= i < |text| :: (text[i] as int) < 0x800
    ensures Block(Puts(text), {}, 2 * |text|)
    decreases |text|
  {
    if text == [] {
      Empty();
    } else {
      var two := [Load(T0, text[0] as int), Emit(Sw(T0, 4, S0))];
      SmallImmediates();
      SmallCode(two);
      PutsBlock(text[1..]);
      Join(two, {}, 2, Puts(text[1..]), {}, 2 * |text[1..]|);
      var none: set<Family> := {};
      assert none + none == none;
    }
  }

  /** A call with an immediate that fits, or jumping to a label known elsewhere, or marking a
      name of these families. */
  predicate Good(c: Call, families: set<Family>) {
    match c
    case Emit(i) => if IsJump(i) then Shared(i.to) else Encodable(i)
    case Mark(name) => Belongs(name, families)
    case Load(_, _) => true
  }

  predicate AllGood(calls: seq<Call>, families: set<Family>) { forall k | 0 <= k < |calls| :: Good(calls[k], families) }

  /** The marks stand at these places only. */
  predicate MarksOnlyAt(calls: seq<Call>, places: set<nat>) {
    forall k | 0 <= k < |calls| :: calls[k].Mark? ==> k in places
  }

  lemma GoodBlock(calls: seq<Call>, families: set<Family>)
    requires AllGood(calls, families) && Distinct(calls)
    ensures Block(calls, families, 2 * |calls|)
  {
    hide Shared, Encodable, CodeOf, Good, Belongs, Distinct;
    CodeBound(calls);
    forall c | c in calls
      ensures c.Mark? ==> Belongs(c.name, families)
      ensures c.Emit? ==> Encodable(c.i) && (IsJump(c.i) ==> Shared(c.i.to))
    {
      var k :| 0 <= k < |calls| && calls[k] == c;
      GoodIs(c, families);
    }
  }

  lemma GoodIs(c: Call, families: set<Family>)
    requires Good(c, families)
    ensures (c.Mark? ==> Belongs(c.name, families)) && (c.Emit? ==> Encodable(c.i) && (IsJump(c.i) ==> Shared(c.i.to)))
  {
  }

  lemma DistinctPlaces(calls: seq<Call>, places: set<nat>)
    requires MarksOnlyAt(calls, places)
    requires forall a, b | a in places && b in places && a < b < |calls| ::
      calls[a].Mark? && calls[b].Mark? ==> calls[a].name != calls[b].name
    ensures Distinct(calls)
  {
  }

  const TRY: Family := ('b', 't', 'r', '-')
  const WAIT: Family := ('b', 'w', 'a', '-')
  const OKAY: Family := ('b', 'o', 'k', '-')
  const LOAD_ADDR: Family := ('b', 'l', 'o', '-')
  const SIZE: Family := ('b', 's', 'i', '-')
  const ENTRY: Family := ('b', 'e', 'n', '-')
  const CHECKSUM: Family := ('b', 'c', 'h', '-')
  const TAIL: Family := ('b', 't', 'a', '-')
  const LOOP: Family := ('p', 'a', 'd', 'o')
  const PAYLOAD_WAIT: Family := ('p', 'a', 'd', 'i')
  const LANE: Family := ('p', 'a', 'd', 'n')
  const BYTE_DONE: Family := ('p', 'a', 'd', 't')
  const SUM_DONE: Family := ('p', 'a', 'd', 'e')
  const BAD: Family := ('b', 'b', 'a', '-')
  const FAIL: Family := ('b', 'f', 'a', '-')
  const MAIN: Family := ('m', 'l', 'o', '-')

  lemma StartGood()
    ensures AllGood(BootStart(), {TRY}) && MarksOnlyAt(BootStart(), {0})
  {
    SmallImmediates();
    hide SignedRange;
  }

  lemma StartBlock()
    ensures Block(BootStart(), {TRY}, 22)
  {
    StartGood();
    BlockLengths();
    hide BootStart;
    DistinctPlaces(BootStart(), {0});
    GoodBlock(BootStart(), {TRY});
  }

  lemma ChecksGood()
    ensures AllGood(Checks(), {})
  {
    SharedNames();
    hide Shared;
  }

  lemma ChecksBlock()
    ensures Block(Checks(), {}, 34)
  {
    ChecksGood();
    BlockLengths();
    hide Checks, Good;
    NoMarks(Checks());
    GoodBlock(Checks(), {});
  }

  lemma NoMarks(calls: seq<Call>)
    requires AllGood(calls, {})
    ensures Distinct(calls)
  {
    forall k | 0 <= k < |calls| ensures !calls[k].Mark? { assert Good(calls[k], {}); }
  }

  lemma SetupGood()
    ensures AllGood(LoopSetup(), {LOOP}) && MarksOnlyAt(LoopSetup(), {5})
  {
    SmallImmediates();
    hide SignedRange;
  }

  lemma SetupBlock()
    ensures Block(LoopSetup(), {LOOP}, 12)
  {
    SetupGood();
    BlockLengths();
    hide LoopSetup;
    DistinctPlaces(LoopSetup(), {5});
    GoodBlock(LoopSetup(), {LOOP});
  }

  lemma ByteGood0()
    ensures forall k | 0 <= k < 10 :: Good(PayloadByte()[k], {LANE, BYTE_DONE})
  {
    SharedNames();
    SmallImmediates();
    hide Shared, SignedRange;
  }

  lemma ByteGood1()
    ensures forall k | 10 <= k < 20 :: Good(PayloadByte()[k], {LANE, BYTE_DONE})
  {
    SharedNames();
    SmallImmediates();
    hide Shared, SignedRange;
  }

  lemma ByteGood2()
    ensures forall k | 20 <= k < 25 :: Good(PayloadByte()[k], {LANE, BYTE_DONE})
  {
    SharedNames();
    SmallImmediates();
    hide Shared, SignedRange;
  }

  lemma ByteGood3()
    ensures forall k | 25 <= k < 30 :: Good(PayloadByte()[k], {LANE, BYTE_DONE})
  {
    SharedNames();
    SmallImmediates();
    hide Shared, SignedRange;
  }

  lemma ByteGood()
    ensures AllGood(PayloadByte(), {LANE, BYTE_DONE})
  {
    BlockLengths();
    hide PayloadByte, Good;
    ByteGood0();
    ByteGood1();
    ByteGood2();
    ByteGood3();
  }

  lemma ByteMarks()
    ensures MarksOnlyAt(PayloadByte(), {10, 15, 20, 26})
    ensures var m := PayloadByte();
      m[10] == Mark("payload_lane1") && m[15] == Mark("payload_lane2") && m[20] == Mark("payload_lane3")
      && m[26] == Mark("payload_byte_done")
  {
  }

  lemma ByteBlock()
    ensures Block(PayloadByte(), {LANE, BYTE_DONE}, 60)
  {
    ByteGood();
    ByteMarks();
    BlockLengths();
    hide PayloadByte;
    LaneNames();
    DistinctPlaces(PayloadByte(), {10, 15, 20, 26});
    GoodBlock(PayloadByte(), {LANE, BYTE_DONE});
  }

  lemma LaneNames()
    ensures "payload_lane1" != "payload_lane2" && "payload_lane1" != "payload_lane3"
    ensures "payload_lane2" != "payload_lane3"
    ensures "payload_byte_done" != "payload_lane1" && "payload_byte_done" != "payload_lane2"
    ensures "payload_byte_done" != "payload_lane3"
  {
    assert "payload_lane1"[12] == '1' && "payload_lane2"[12] == '2' && "payload_lane3"[12] == '3';
  }

  lemma AcceptGood0()
    ensures forall k | 0 <= k < 8 :: Good(BootAccept()[k], {SUM_DONE})
  {
    SharedNames();
    SmallImmediates();
    hide Shared, SignedRange;
  }

  lemma AcceptGood1()
    ensures forall k | 8 <= k < 16 :: Good(BootAccept()[k], {SUM_DONE})
  {
    SharedNames();
    SmallImmediates();
    hide Shared, SignedRange;
  }

  lemma AcceptGood()
    ensures AllGood(BootAccept(), {SUM_DONE})
  {
    BlockLengths();
    hide BootAccept, Good;
    AcceptGood0();
    AcceptGood1();
  }

  lemma AcceptMarks()
    ensures MarksOnlyAt(BootAccept(), {2})
  {
  }

  lemma AcceptBlock()
    ensures Block(BootAccept(), {SUM_DONE}, 32)
  {
    AcceptGood();
    AcceptMarks();
    BlockLengths();
    hide BootAccept;
    DistinctPlaces(BootAccept(), {2});
    GoodBlock(BootAccept(), {SUM_DONE});
  }

  lemma RejectGood0()
    ensures forall k | 0 <= k < 9 :: Good(BootReject()[k], {BAD, FAIL})
  {
    SharedNames();
    SmallImmediates();
    hide Shared, SignedRange;
  }

  lemma RejectGood1()
    ensures forall k | 9 <= k < |BootReject()| :: Good(BootReject()[k], {BAD, FAIL})
  {
    SharedNames();
    SmallImmediates();
    hide Shared, SignedRange;
  }

  lemma RejectGood()
    ensures AllGood(BootReject(), {BAD, FAIL})
  {
    BlockLengths();
    hide BootReject, Good;
    RejectGood0();
    RejectGood1();
  }

  lemma RejectMarks()
    ensures MarksOnlyAt(BootReject(), {0, 3, 6, 9, 12, 15})
    ensures var m := BootReject();
      m[0] == Mark("boot_bad_magic") && m[3] == Mark("boot_bad_range") && m[6] == Mark("boot_bad_size")
      && m[9] == Mark("boot_bad_entry") && m[12] == Mark("boot_bad_checksum") && m[15] == Mark("boot_fail")
  {
  }

  lemma RejectBlock()
    ensures Block(BootReject(), {BAD, FAIL}, 38)
  {
    RejectGood();
    RejectMarks();
    BlockLengths();
    hide BootReject;
    BadNames();
    DistinctPlaces(BootReject(), {0, 3, 6, 9, 12, 15});
    GoodBlock(BootReject(), {BAD, FAIL});
  }

  lemma BadNames()
    ensures "boot_bad_magic" != "boot_bad_range" && "boot_bad_magic" != "boot_bad_entry"
    ensures "boot_bad_range" != "boot_bad_entry" && "boot_fail" != "boot_bad_magic" && "boot_fail" != "boot_bad_range"
    ensures "boot_bad_size" != "boot_bad_magic" && "boot_bad_size" != "boot_bad_range"
    ensures "boot_bad_size" != "boot_bad_entry"
    ensures "boot_bad_checksum" != "boot_bad_magic" && "boot_bad_checksum" != "boot_bad_range"
    ensures "boot_bad_checksum" != "boot_bad_entry" && "boot_bad_checksum" != "boot_bad_size"
    ensures "boot_fail" != "boot_bad_size"
    ensures "boot_fail" != "boot_bad_entry" && "boot_fail" != "boot_bad_checksum"
  {
    assert "boot_bad_magic"[9] == 'm' && "boot_bad_range"[9] == 'r' && "boot_bad_entry"[9] == 'e';
  }

  lemma JumpBlock()
    ensures Block([J("main_loop")], {}, 2)
  {
    var calls := [J("main_loop")];
    assert AllGood(calls, {}) by { SharedNames(); }
    NoMarks(calls);
    GoodBlock(calls, {});
  }

  lemma MainBlock()
    ensures Block([Mark("main_loop")], {MAIN}, 2)
  {
    var calls := [Mark("main_loop")];
    assert AllGood(calls, {MAIN});
    DistinctPlaces(calls, {0});
    GoodBlock(calls, {MAIN});
  }

  // ------------------------------------------------------------------ the SPI macros

  lemma TransferNames(wait: string, f: Family)
    requires Belongs(wait, {f})
    ensures Distinct(SpiTransfer(0xFF, wait)) && NamesIn(SpiTransfer(0xFF, wait), {f})
  {
    hide Belongs;
  }

  lemma TransferJumps(wait: string)
    ensures JumpsMarked(SpiTransfer(0xFF, wait))
  {
    hide Shared;
    var calls := SpiTransfer(0xFF, wait);
    assert calls[4] == Mark(wait) && calls[7] == Emit(Bne(T0, ZERO, wait));
    assert forall k | 0 <= k < 11 :: calls[k].Emit? && IsJump(calls[k].i) ==> k == 7;
    assert |calls| == 11;
    hide SpiTransfer;
  }

  lemma TransferSize(wait: string)
    ensures |CodeOf(SpiTransfer(0xFF, wait))| <= 11
  {
    hide CodeOf;
    var calls := SpiTransfer(0xFF, wait);
    assert |calls| == 11 && forall k | 0 <= k < 11 :: calls[k].Load? ==> -0x800 <= calls[k].imm < 0x800;
    hide SpiTransfer;
    SmallCode(calls);
  }

  lemma TransferAccepted(wait: string)
    ensures Accepted(SpiTransfer(0xFF, wait))
  {
    SmallImmediates();
    hide SignedRange;
  }

  lemma TransferBlock(wait: string, f: Family)
    requires Belongs(wait, {f})
    ensures Block(SpiTransfer(0xFF, wait), {f}, 11)
  {
    hide SpiTransfer, CodeOf, NamesIn, Distinct, Accepted, JumpsMarked, Belongs;
    TransferNames(wait, f);
    TransferJumps(wait);
    TransferSize(wait);
    TransferAccepted(wait);
  }

  lemma TestParts(expected: byte, okName: string, f: Family)
    requires Belongs(okName, {f})
    ensures var calls := ExpectTest(expected, okName, "boot_bad_magic");
      Distinct(calls) && NamesIn(calls, {f}) && Accepted(calls) && |CodeOf(calls)| <= 4
  {
    SmallCode(ExpectTest(expected, okName, "boot_bad_magic"));
    hide CodeOf, Belongs;
  }

  lemma TestBlock(expected: byte, okName: string, f: Family)
    requires Belongs(okName, {f})
    ensures Block(ExpectTest(expected, okName, "boot_bad_magic"), {f}, 4)
  {
    hide CodeOf, Shared, Belongs, NamesIn, Distinct, Accepted;
    var calls := ExpectTest(expected, okName, "boot_bad_magic");
    TestParts(expected, okName, f);
    SharedNames();
    assert calls[3] == Mark(okName);
  }

  /** The family of the two names of a constant byte. */
  function WaitFamily(part: Part): Family { if part.Magic? then WAIT else TAIL }

  function OkFamily(part: Part): Family { if part.Magic? then OKAY else TAIL }

  lemma ByteNames(part: Part, i: nat)
    ensures Belongs(WaitName(part, i), {WaitFamily(part)}) && Belongs(OkName(part, i), {OkFamily(part)})
  {
    hide Decimal;
    PutHex.DecimalShape(i);
  }

  /** No two of the names of the constant bytes coincide. */
  lemma ByteNamesDiffer(part: Part, i: nat, j: nat)
    ensures WaitName(part, i) != OkName(part, j)
    ensures i != j ==> WaitName(part, i) != WaitName(part, j) && OkName(part, i) != OkName(part, j)
  {
    hide Decimal;
    PutHex.DecimalShape(i);
    PutHex.DecimalShape(j);
    var wi, wj, oi, oj := WaitName(part, i), WaitName(part, j), OkName(part, i), OkName(part, j);
    if Decimal(i) == Decimal(j) { PutHex.DecimalInjective(i, j); }
    if part.Magic? {
      assert wi[5] == 'w' && oj[5] == 'o';
      assert wi[10..] == Decimal(i) && wj[10..] == Decimal(j);
      assert oi[8..] == Decimal(i) && oj[8..] == Decimal(j);
    } else {
      assert wi[10] == 'w' && oj[10] == 'o';
      assert wi[15..] == Decimal(i) && wj[15..] == Decimal(j);
      assert i != 11 ==> oi[13..] == Decimal(i);
      assert j != 11 ==> oj[13..] == Decimal(j);
    }
  }

  /** The names marked from the i-th constant byte on. */
  ghost predicate NameFrom(name: string, part: Part, i: nat) {
    exists j: nat :: i <= j && (name == WaitName(part, j) || name == OkName(part, j))
  }

  lemma OneByteBlock(part: Part, i: nat)
    requires i < |Expected(part)|
    ensures Block(ExpectOne(part, i), {WaitFamily(part)} + {OkFamily(part)}, 15)
    ensures forall c | c in ExpectOne(part, i) :: c.Mark? ==> c.name == WaitName(part, i) || c.name == OkName(part, i)
  {
    hide WaitName, OkName, Block, Belongs;
    ByteNames(part, i);
    ByteNamesDiffer(part, i, i);
    var a := SpiTransfer(0xFF, WaitName(part, i));
    var b := ExpectTest(Expected(part)[i], OkName(part, i), "boot_bad_magic");
    TransferBlock(WaitName(part, i), WaitFamily(part));
    TestBlock(Expected(part)[i], OkName(part, i), OkFamily(part));
    JoinApart(a, {WaitFamily(part)}, 11, b, {OkFamily(part)}, 4);
  }

  lemma {:induction false} ExpectBlock(part: Part, i: nat)
    requires i <= |Expected(part)|
    ensures Block(ExpectFrom(part, i), {WaitFamily(part)} + {OkFamily(part)}, 15 * (|Expected(part)| - i))
    ensures forall c | c in ExpectFrom(part, i) :: c.Mark? ==> NameFrom(c.name, part, i)
    decreases |Expected(part)| - i
  {
    hide WaitName, OkName, Block, ExpectOne, NameFrom, WaitFamily, OkFamily, Expected;
    var f := {WaitFamily(part)} + {OkFamily(part)};
    if i == |Expected(part)| {
      NoCalls(f);
    } else {
      var a, b := ExpectOne(part, i), ExpectFrom(part, i + 1);
      OneByteBlock(part, i);
      ExpectBlock(part, i + 1);
      forall c, d | c in a && d in b && c.Mark? && d.Mark? ensures c.name != d.name {
        LaterName(part, i, c.name, d.name);
      }
      JoinApart(a, f, 15, b, f, 15 * (|Expected(part)| - (i + 1)));
      assert f + f == f;
      forall c | c in a + b && c.Mark? ensures NameFrom(c.name, part, i) { FromHere(part, i, c.name); }
    }
  }

  lemma NoCalls(f: set<Family>)
    ensures Block([], f, 0)
  {
  }

  lemma LaterName(part: Part, i: nat, name: string, later: string)
    requires (name == WaitName(part, i) || name == OkName(part, i)) && NameFrom(later, part, i + 1)
    ensures name != later
  {
    hide WaitName, OkName;
    var j: nat :| i + 1 <= j && (later == WaitName(part, j) || later == OkName(part, j));
    ByteNamesDiffer(part, i, j);
    ByteNamesDiffer(part, j, i);
  }

  lemma FromHere(part: Part, i: nat, name: string)
    requires name == WaitName(part, i) || name == OkName(part, i) || NameFrom(name, part, i + 1)
    ensures NameFrom(name, part, i)
  {
    hide WaitName, OkName;
  }

  // ------------------------------------------------------------------ the header fields

  lemma CopyBlock(rd: reg)
    ensures Block([CopyReg(rd, T1)], {}, 1)
  {
    SmallImmediates();
    SmallCode([CopyReg(rd, T1)]);
    hide CodeOf, SignedRange;
  }

  lemma JoinLanesBlock(dst: reg)
    ensures Block(JoinLanes(dst), {}, 16)
  {
    assert AllGood(JoinLanes(dst), {}) by {
      SmallImmediates();
      hide SignedRange;
    }
    JoinLength(dst);
    hide JoinLanes, Good;
    NoMarks(JoinLanes(dst));
    GoodBlock(JoinLanes(dst), {});
  }

  /** A transfer under one of the four names of a word, and the rest of the macro. */
  lemma LaneBlock(prefix: string, k: nat, f: Family, rest: seq<Call>, size: nat)
    requires |prefix| > 6 && prefix[0] == 'b' && f == (prefix[0], prefix[5], prefix[6], '-') && k < 4
    requires Block(rest, {f}, size)
    requires forall c | c in rest :: c.Mark? ==> LaneNameFrom(c.name, prefix, k + 1)
    ensures var all := SpiTransfer(0xFF, LaneName(prefix, k)) + rest;
      Block(all, {f}, 11 + size) && forall c | c in all :: c.Mark? ==> LaneNameFrom(c.name, prefix, k)
  {
    hide Block, LaneName, LaneNameFrom;
    var a := SpiTransfer(0xFF, LaneName(prefix, k));
    assert Belongs(LaneName(prefix, k), {f}) by { LaneBelongs(prefix, k, f); }
    TransferBlock(LaneName(prefix, k), f);
    forall c, d | c in a && d in rest && c.Mark? && d.Mark? ensures c.name != d.name {
      LaneNamesDiffer(prefix, k, d.name);
    }
    JoinApart(a, {f}, 11, rest, {f}, size);
    assert {f} + {f} == {f};
    forall c | c in a + rest && c.Mark? ensures LaneNameFrom(c.name, prefix, k) { LaneHere(prefix, k, c.name); }
  }

  function LaneName(prefix: string, k: nat): string
    requires k < 4
  {
    prefix + if k == 0 then "_wait_b0" else if k == 1 then "_wait_b1" else if k == 2 then "_wait_b2" else "_wait_b3"
  }

  predicate LaneNameFrom(name: string, prefix: string, k: nat) { exists j | k <= j < 4 :: name == LaneName(prefix, j) }

  lemma LaneBelongs(prefix: string, k: nat, f: Family)
    requires |prefix| > 6 && prefix[0] == 'b' && f == (prefix[0], prefix[5], prefix[6], '-') && k < 4
    ensures Belongs(LaneName(prefix, k), {f})
  {
  }

  lemma LaneNamesDiffer(prefix: string, k: nat, later: string)
    requires k < 4 && LaneNameFrom(later, prefix, k + 1)
    ensures LaneName(prefix, k) != later
  {
    var j :| k + 1 <= j < 4 && later == LaneName(prefix, j);
    LaneDigit(prefix, k);
    LaneDigit(prefix, j);
  }

  lemma LaneDigit(prefix: string, k: nat)
    requires k < 4
    ensures |LaneName(prefix, k)| == |prefix| + 8 && LaneName(prefix, k)[|prefix| + 7] == "0123"[k]
  {
  }

  lemma LaneHere(prefix: string, k: nat, name: string)
    requires k < 4 && (name == LaneName(prefix, k) || LaneNameFrom(name, prefix, k + 1))
    ensures LaneNameFrom(name, prefix, k)
  {
    hide LaneName;
  }

  /** A copy in front of the rest of the macro. */
  lemma CopyThen(rd: reg, prefix: string, k: nat, f: Family, rest: seq<Call>, size: nat)
    requires Block(rest, {f}, size) && forall c | c in rest :: c.Mark? ==> LaneNameFrom(c.name, prefix, k)
    ensures var all := [CopyReg(rd, T1)] + rest;
      Block(all, {f}, 1 + size) && forall c | c in all :: c.Mark? ==> LaneNameFrom(c.name, prefix, k)
  {
    hide Block, LaneNameFrom;
    CopyBlock(rd);
    JoinApart([CopyReg(rd, T1)], {}, 1, rest, {f}, size);
    assert {} + {f} == {f};
  }

  lemma ReadBlock(dst: reg, prefix: string, f: Family)
    requires |prefix| > 6 && prefix[0] == 'b' && f == (prefix[0], prefix[5], prefix[6], '-')
    ensures Block(ReadU32Le(dst, prefix), {f}, 63)
  {
    hide Block, SpiTransfer, JoinLanes, LaneNameFrom;
    JoinLanesBlock(dst);
    assert Block(JoinLanes(dst), {f}, 16) by { MoreFamilies(JoinLanes(dst), f, 16); }
    assert forall c | c in JoinLanes(dst) :: !c.Mark? by { LanesUnmarked(dst); }
    var r3 := SpiTransfer(0xFF, LaneName(prefix, 3)) + JoinLanes(dst);
    LaneBlock(prefix, 3, f, JoinLanes(dst), 16);
    CopyThen(T5, prefix, 3, f, r3, 27);
    var r2 := SpiTransfer(0xFF, LaneName(prefix, 2)) + ([CopyReg(T5, T1)] + r3);
    LaneBlock(prefix, 2, f, [CopyReg(T5, T1)] + r3, 28);
    CopyThen(T4, prefix, 2, f, r2, 39);
    var r1 := SpiTransfer(0xFF, LaneName(prefix, 1)) + ([CopyReg(T4, T1)] + r2);
    LaneBlock(prefix, 1, f, [CopyReg(T4, T1)] + r2, 40);
    CopyThen(T3, prefix, 1, f, r1, 51);
    LaneBlock(prefix, 0, f, [CopyReg(T3, T1)] + r1, 52);
  }

  lemma MoreFamilies(calls: seq<Call>, f: Family, size: nat)
    requires Block(calls, {}, size)
    ensures Block(calls, {f}, size)
  {
    hide CodeOf, Accepted, JumpsMarked, Distinct;
  }

  lemma LanesUnmarked(dst: reg)
    ensures forall c | c in JoinLanes(dst) :: !c.Mark?
  {
  }

  lemma FieldsBlock()
    ensures Block(HeaderFields(), {LOAD_ADDR, SIZE, ENTRY, CHECKSUM}, 252)
  {
    hide Block, ReadU32Le;
    ReadBlock(S6, "boot_load_addr", LOAD_ADDR);
    ReadBlock(S7, "boot_size", SIZE);
    ReadBlock(S8, "boot_entry", ENTRY);
    ReadBlock(S9, "boot_checksum", CHECKSUM);
    var c, d := ReadU32Le(S8, "boot_entry"), ReadU32Le(S9, "boot_checksum");
    Join(c, {ENTRY}, 63, d, {CHECKSUM}, 63);
    Join(ReadU32Le(S7, "boot_size"), {SIZE}, 63, c + d, {ENTRY} + {CHECKSUM}, 126);
    var rest := ReadU32Le(S7, "boot_size") + (c + d);
    Join(ReadU32Le(S6, "boot_load_addr"), {LOAD_ADDR}, 63, rest, {SIZE} + ({ENTRY} + {CHECKSUM}), 189);
    assert {LOAD_ADDR} + ({SIZE} + ({ENTRY} + {CHECKSUM})) == {LOAD_ADDR, SIZE, ENTRY, CHECKSUM};
  }

  // ------------------------------------------------------------------ the whole listing

  lemma EndBlock()
    ensures Block(Ending(), {SUM_DONE, BAD, FAIL}, 118)
  {
    hide Block, Puts, BootAccept, BootReject;
    var jump, none := [J("main_loop")], {};
    PutsBlock(OK_TEXT);
    PutsBlock(ERROR_TEXT);
    JumpBlock();
    AcceptBlock();
    RejectBlock();
    var d := Puts(ERROR_TEXT) + jump;
    Join(Puts(ERROR_TEXT), {}, 22, jump, {}, 2);
    var c := BootReject() + d;
    Join(BootReject(), {BAD, FAIL}, 38, d, none + none, 24);
    var b := jump + c;
    Join(jump, {}, 2, c, {BAD, FAIL} + (none + none), 62);
    var a := Puts(OK_TEXT) + b;
    Join(Puts(OK_TEXT), {}, 22, b, none + ({BAD, FAIL} + (none + none)), 64);
    Join(BootAccept(), {SUM_DONE}, 32, a, none + (none + ({BAD, FAIL} + (none + none))), 86);
    assert {SUM_DONE} + (none + (none + ({BAD, FAIL} + (none + none)))) == {SUM_DONE, BAD, FAIL};
  }

  lemma BodyBlock()
    ensures Block(Body(), {LOOP, PAYLOAD_WAIT, LANE, BYTE_DONE, SUM_DONE, BAD, FAIL}, 235)
  {
    hide Block, Checks, LoopSetup, SpiTransfer, PayloadByte, Ending;
    EndBlock();
    ByteBlock();
    TransferBlock("payload_wait", PAYLOAD_WAIT);
    SetupBlock();
    ChecksBlock();
    var wait := SpiTransfer(0xFF, "payload_wait");
    Join(wait, {PAYLOAD_WAIT}, 11, PayloadByte(), {LANE, BYTE_DONE}, 60);
    Join(PayloadLoop(), {PAYLOAD_WAIT} + {LANE, BYTE_DONE}, 71, Ending(), {SUM_DONE, BAD, FAIL}, 118);
    var rest := {PAYLOAD_WAIT} + {LANE, BYTE_DONE} + {SUM_DONE, BAD, FAIL};
    Join(LoopSetup(), {LOOP}, 12, PayloadLoop() + Ending(), rest, 189);
    Join(Checks(), {}, 34, LoopSetup() + (PayloadLoop() + Ending()), {LOOP} + rest, 201);
    assert {} + ({LOOP} + rest) == {LOOP, PAYLOAD_WAIT, LANE, BYTE_DONE, SUM_DONE, BAD, FAIL};
  }

  const ALL: set<Family> := {
    TRY, WAIT, OKAY, LOAD_ADDR, SIZE, ENTRY, CHECKSUM, TAIL, LOOP, PAYLOAD_WAIT,
    LANE, BYTE_DONE, SUM_DONE, BAD, FAIL, MAIN }

  lemma ListingBlock()
    ensures Block(BootTry() + [Mark("main_loop")], ALL, 751)
  {
    hide Block, BootStart, ExpectFrom, HeaderFields, Body;
    StartBlock();
    ExpectBlock(Magic, 0);
    FieldsBlock();
    ExpectBlock(Tail, 0);
    BodyBlock();
    MainBlock();
    var fBody := {LOOP, PAYLOAD_WAIT, LANE, BYTE_DONE, SUM_DONE, BAD, FAIL};
    var fTail := {TAIL} + {TAIL} + fBody;
    var fFields := {LOAD_ADDR, SIZE, ENTRY, CHECKSUM} + fTail;
    var fMagic := {WAIT} + {OKAY} + fFields;
    var tail := ExpectFrom(Tail, 0) + Body();
    Join(ExpectFrom(Tail, 0), {TAIL} + {TAIL}, 180, Body(), fBody, 235);
    var fields := HeaderFields() + tail;
    Join(HeaderFields(), {LOAD_ADDR, SIZE, ENTRY, CHECKSUM}, 252, tail, fTail, 415);
    var magic := ExpectFrom(Magic, 0) + fields;
    Join(ExpectFrom(Magic, 0), {WAIT} + {OKAY}, 60, fields, fFields, 667);
    Join(BootStart(), {TRY}, 22, magic, fMagic, 727);
    Join(BootStart() + magic, {TRY} + fMagic, 749, [Mark("main_loop")], {MAIN}, 2);
    assert {TRY} + fMagic + {MAIN} == ALL;
  }

  /** Every label another block jumps to is marked in the listing, or is main_loop. */
  lemma SharedMarked(e: Env, name: string)
    requires Placed(e, 0, BootTry()) && MarkedAt(e, 616, "main_loop") && Shared(name)
    ensures Mark(name) in e.calls
  {
    hide Placed, BootTry, HeadPlaces, BodyPlaces, EndPlaces;
    Places(e, 0);
    FailMarks(e, 0);
    BootPayload.LoopMarks(e, 0);
    SumMark(e);
  }

  lemma SumMark(e: Env)
    requires EndPlaces(e, 0)
    ensures MarkedAt(e, 537, "payload_checksum_done")
  {
    hide Placed, Puts, BootReject;
    PlacedMark(e, 535, BootAccept(), 2, "payload_checksum_done");
  }

  lemma ListingLength()
    ensures |BootTry()| == 616
  {
    hide BootStart, ExpectFrom, ReadU32Le, Checks, LoopSetup, SpiTransfer, PayloadByte, BootAccept, BootReject, Puts;
    BlockLengths();
    ExpectLength(Magic, 0);
    ExpectLength(Tail, 0);
    ReadLength(S6, "boot_load_addr");
    ReadLength(S7, "boot_size");
    ReadLength(S8, "boot_entry");
    ReadLength(S9, "boot_checksum");
    TransferLength("payload_wait");
    PutsLength(OK_TEXT);
    PutsLength(ERROR_TEXT);
  }

  /** The listing, followed by the label it returns to. */
  function BootEnv(base: word, card: Card): Env {
    Env(BootTry() + [Mark("main_loop")], base, card)
  }

  /** What the theorems about the listing's machine code ask of a program. */
  ghost predicate Runnable(e: Env, p: nat, ml: nat) {
    hide BootTry;
    Assembled(e) && Placed(e, p, BootTry()) && MarkedAt(e, ml, "main_loop")
  }

  /** The listing, with the label it returns to, assembles: so there are programs the theorems
      about its machine code speak of. */
  lemma BootTryAssembles(base: word, card: Card)
    requires base < W32 - 0x1000
    ensures Runnable(BootEnv(base, card), 0, 616)
  {
    hide BootTry, CodeOf, LabelsOf, Accepted, AllResolvable, Distinct, NamesIn, Shared;
    var calls := BootTry() + [Mark("main_loop")];
    var e := BootEnv(base, card);
    ListingLength();
    ListingBlock();
    assert Placed(e, 0, BootTry());
    forall c | c in calls && c.Emit? && IsJump(c.i) ensures Mark(c.i.to) in calls {
      if Shared(c.i.to) { SharedMarked(e, c.i.to); }
    }
    ShortProgramsResolve(calls);
  }
}
