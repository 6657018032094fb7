/** The assembler object: it appends words, records labels and fixups, and back-patches
    the jumps; and what the patched words mean. */
module Assembler {
  import opened Bits
  import opened Rv32
  import opened Encoding

  type Code = seq<Insn<string>>

  type Labels = map<string, nat>

  datatype Fixup = Fixup(index: nat, insn: Insn<string>)

  function LabelOf(i: Insn<string>): string
    requires IsJump(i)
  {
    i.to
  }

  // ------------------------------------------------------------------ specification

  /** The words before resolution: jumps are emitted as 0. */
  function RawWord(i: Insn<string>): nat { if IsJump(i) then 0 else PlainWord(i) }

  function RawWords(code: Code): seq<nat> {
    seq(|code|, k requires 0 <= k < |code| => RawWord(code[k]))
  }

  function FixupsOf(code: Code): seq<Fixup> {
    if code == [] then []
    else
      var n := |code| - 1;
      FixupsOf(code[..n]) + if IsJump(code[n]) then [Fixup(n, code[n])] else []
  }

  function Offset(i: Insn<string>, k: nat, labels: Labels): int
    requires IsJump(i) && LabelOf(i) in labels
  {
    labels[LabelOf(i)] - 4 * k
  }

  /** The jump at index k has a defined label within reach. */
  predicate Resolvable(i: Insn<string>, k: nat, labels: Labels) {
    IsJump(i) ==> LabelOf(i) in labels && InReach(i, Offset(i, k, labels))
  }

  predicate AllResolvable(code: Code, labels: Labels) {
    forall k | 0 <= k < |code| :: Resolvable(code[k], k, labels)
  }

  function FinalWord(i: Insn<string>, k: nat, labels: Labels): nat
    requires Resolvable(i, k, labels)
  {
    if IsJump(i) then JumpWord(i, Offset(i, k, labels)) else PlainWord(i)
  }

  function FinalWords(code: Code, labels: Labels): seq<nat>
    requires AllResolvable(code, labels)
  {
    seq(|code|, k requires 0 <= k < |code| => FinalWord(code[k], k, labels))
  }

  lemma Appended(code: Code, i: Insn<string>)
    ensures RawWords(code + [i]) == RawWords(code) + [RawWord(i)] && |RawWords(code)| == |code|
    ensures FixupsOf(code + [i]) == FixupsOf(code) + if IsJump(i) then [Fixup(|code|, i)] else []
  {
    hide PlainWord;
    assert (code + [i])[..|code|] == code;
  }

  /** Every fixup names a jump of the code, in increasing order, and none is missing. */
  ghost predicate Complete(code: Code, fixups: seq<Fixup>) {
    && (forall a | 0 <= a < |fixups| ::
          var f := fixups[a]; f.index < |code| && f.insn == code[f.index] && IsJump(f.insn))
    && (forall a, b | 0 <= a < b < |fixups| :: fixups[a].index < fixups[b].index)
    && (forall k | 0 <= k < |code| && IsJump(code[k]) :: Fixup(k, code[k]) in fixups)
  }

  lemma CompleteAppend(code: Code, fixups: seq<Fixup>, i: Insn<string>)
    requires Complete(code, fixups)
    ensures Complete(code + [i], fixups + if IsJump(i) then [Fixup(|code|, i)] else [])
  {
    hide IsJump;
    var all := fixups + if IsJump(i) then [Fixup(|code|, i)] else [];
    forall k | 0 <= k <= |code| && IsJump((code + [i])[k]) ensures Fixup(k, (code + [i])[k]) in all {
      if k == |code| { assert all[|fixups|] == Fixup(k, i); }
    }
  }

  lemma {:induction false} FixupsComplete(code: Code)
    ensures Complete(code, FixupsOf(code))
  {
    hide Complete, IsJump;
    if code == [] {
      NothingToFix();
    } else {
      var n := |code| - 1;
      FixupsComplete(code[..n]);
      CompleteAppend(code[..n], FixupsOf(code[..n]), code[n]);
      assert code == code[..n] + [code[n]];
    }
  }

  lemma NothingToFix()
    ensures Complete([], [])
  {
  }

  function AsSigned32(value: int): int {
    if value % W32 < 0x8000_0000 then value % W32 else value % W32 - W32
  }

  function LiCode(rd: reg, imm: int): Code {
    var v := AsSigned32(imm);
    if -0x800 <= v < 0x800 then [Addi(rd, ZERO, v)]
    else
      var upper := (v + 0x800) / 0x1000;
      var lower := v - upper * 0x1000;
      [Lui(rd, upper)] + if lower != 0 then [Addi(rd, rd, lower)] else []
  }

  /** The immediates li splits a constant into always fit, so it never fails. */
  lemma LiEncodable(rd: reg, imm: int)
    ensures forall i | i in LiCode(rd, imm) :: Encodable(i) && !IsJump(i)
  {
    ShiftValues();
  }

  // ------------------------------------------------------------------ the object

  class Program {
    var words: seq<nat>
    var labels: Labels
    var fixups: seq<Fixup>
    ghost var source: Code

    ghost predicate Valid()
      reads this
    {
      words == RawWords(source) && fixups == FixupsOf(source)
      && forall k | 0 <= k < |source| :: IsJump(source[k]) || Encodable(source[k])
    }

    constructor ()
      ensures Valid() && source == [] && labels == map[]
    {
      words, labels, fixups, source := [], map[], [], [];
    }

    function Pc(): nat
      reads this
    {
      4 * |words|
    }

    /** A later definition of the same name silently replaces an earlier one. */
    method Label(name: string)
      requires Valid()
      modifies this`labels
      ensures Valid() && labels == old(labels)[name := 4 * |source|]
    {
      labels := labels[name := Pc()];
    }

    /** One encoder call.  It fails, leaving the program as it was, when the immediate is
        out of range; the distance of a jump is not known yet. */
    method Insert(i: Insn<string>) returns (ok: bool)
      requires Valid()
      modifies this`words, this`fixups, this`source
      ensures Valid() && ok == Encodable(i)
      ensures source == if ok then old(source) + [i] else old(source)
    {
      hide PlainWord, Encodable, Decode, Meaning, FixupsOf, RawWords;
      ok := Encodable(i);
      if !ok { return; }
      Appended(source, i);
      if IsJump(i) {
        fixups := fixups + [Fixup(|words|, i)];
        words := words + [0];
      } else {
        PlainDecodes(i);
        words := words + [PlainWord(i) % W32];
      }
      source := source + [i];
    }

    /** li: one addi when the constant fits, otherwise lui and, if needed, addi. */
    method LoadImm(rd: reg, imm: int)
      requires Valid()
      modifies this`words, this`fixups, this`source
      ensures Valid() && source == old(source) + LiCode(rd, imm)
    {
      hide Encodable, SignedRange;
      var v := AsSigned32(imm);
      LiEncodable(rd, imm);
      if -0x800 <= v < 0x800 {
        var ok := Insert(Addi(rd, ZERO, v));
        return;
      }
      var upper := (v + 0x800) / 0x1000;
      var lower := v - upper * 0x1000;
      var ok := Insert(Lui(rd, upper));
      if lower != 0 {
        ok := Insert(Addi(rd, rd, lower));
        assert old(source) + [Lui(rd, upper)] + [Addi(rd, rd, lower)] == old(source) + LiCode(rd, imm);
      }
    }

    /** Back-patch every jump.  It succeeds exactly when every label used is defined and
        within reach, and then only the words of jumps have changed. */
    method Resolve() returns (ok: bool)
      requires Valid()
      modifies this`words
      ensures ok <==> AllResolvable(source, labels)
      ensures ok ==> words == FinalWords(source, labels)
      ensures |words| == |source| && forall k | 0 <= k < |source| && !IsJump(source[k]) :: words[k] == old(words[k])
    {
      hide PlainWord, JumpWord, InReach, Encodable;
      FixupsComplete(source);
      ok := true;
      for n := 0 to |fixups|
        invariant ok && |words| == |source|
        invariant forall k | 0 <= k < |source| && Done(fixups, n, k) ::
          Resolvable(source[k], k, labels) && words[k] == FinalWord(source[k], k, labels)
        invariant forall k | 0 <= k < |source| && !Done(fixups, n, k) :: words[k] == RawWord(source[k])
      {
        var f := fixups[n];
        DoneStep(fixups, n);
        if LabelOf(f.insn) !in labels || !InReach(f.insn, labels[LabelOf(f.insn)] - 4 * f.index) {
          assert !Resolvable(source[f.index], f.index, labels);
          ok := false;
          return;
        }
        words := words[f.index := JumpWord(f.insn, labels[LabelOf(f.insn)] - 4 * f.index)];
      }
      forall k | 0 <= k < |source|
        ensures Resolvable(source[k], k, labels) && words[k] == FinalWord(source[k], k, labels)
      {
        if IsJump(source[k]) {
          assert Fixup(k, source[k]) in fixups;
          assert Done(fixups, |fixups|, k);
        }
      }
    }
  }

  /** One of the first n fixups is at index k. */
  ghost predicate Done(fixups: seq<Fixup>, n: nat, k: nat) {
    exists a :: 0 <= a < n && a < |fixups| && fixups[a].index == k
  }

  lemma DoneStep(fixups: seq<Fixup>, n: nat)
    requires n < |fixups|
    ensures forall k: nat :: Done(fixups, n + 1, k) <==> Done(fixups, n, k) || k == fixups[n].index
  {
    forall k: nat ensures Done(fixups, n + 1, k) <==> Done(fixups, n, k) || k == fixups[n].index {
      if k == fixups[n].index { assert fixups[n].index == k; }
      if Done(fixups, n, k) { assert Done(fixups, n + 1, k); }
    }
  }

  // ------------------------------------------------------------------ programs as lists of calls

  /** A call on the program object. */
  datatype Call = Emit(i: Insn<string>) | Mark(name: string) | Load(rd: reg, imm: int)

  function CallCode(c: Call): Code {
    match c
    case Emit(i) => [i]
    case Mark(_) => []
    case Load(rd, imm) => LiCode(rd, imm)
  }

  /** The instructions of a list of calls, and the pc each name was last given. */
  function CodeOf(calls: seq<Call>): Code {
    if calls == [] then [] else CodeOf(calls[..|calls| - 1]) + CallCode(calls[|calls| - 1])
  }

  function LabelsOf(calls: seq<Call>): Labels {
    if calls == [] then map[]
    else
      var before := calls[..|calls| - 1];
      match calls[|calls| - 1]
      case Mark(name) => LabelsOf(before)[name := 4 * |CodeOf(before)|]
      case _ => LabelsOf(before)
  }

  predicate Accepted(calls: seq<Call>) {
    forall c | c in calls :: c.Emit? ==> Encodable(c.i)
  }

  /** Making the calls in order builds the code and labels they denote, or stops at the
      first rejected immediate. */
  method Build(calls: seq<Call>) returns (p: Program, ok: bool)
    ensures fresh(p) && p.Valid()
    ensures ok <==> Accepted(calls)
    ensures ok ==> p.source == CodeOf(calls) && p.labels == LabelsOf(calls)
  {
    hide Encodable, LiCode, Program.Valid;
    p := new Program();
    ok := true;
    for n := 0 to |calls|
      invariant fresh(p) && p.Valid() && ok
      invariant Accepted(calls[..n]) && p.source == CodeOf(calls[..n]) && p.labels == LabelsOf(calls[..n])
    {
      assert calls[..n + 1][..n] == calls[..n];
      match calls[n]
      case Emit(i) =>
        ok := p.Insert(i);
        if !ok {
          assert calls[n] in calls;
          return;
        }
      case Mark(name) => p.Label(name);
      case Load(rd, imm) => p.LoadImm(rd, imm);
    }
    assert calls[..|calls|] == calls;
  }

  /** A number inside a label name. */
  function Decimal(n: nat): string {
    if n < 10 then ["0123456789"[n]] else Decimal(n / 10) + ["0123456789"[n % 10]]
  }

  /** Names are given once. */
  predicate Distinct(calls: seq<Call>) {
    forall a, b | 0 <= a < b < |calls| :: calls[a].Mark? && calls[b].Mark? ==> calls[a].name != calls[b].name
  }

  /** A label stands for the pc of its last definition; so with distinct names, for the
      place where it was written. */
  lemma {:induction false} LabelIsLastMark(calls: seq<Call>, k: nat)
    requires k < |calls| && calls[k].Mark?
    requires forall j | k < j < |calls| :: calls[j].Mark? ==> calls[j].name != calls[k].name
    ensures calls[k].name in LabelsOf(calls) && LabelsOf(calls)[calls[k].name] == 4 * |CodeOf(calls[..k])|
  {
    var n := |calls| - 1;
    var before := calls[..n];
    if k == n {
    } else {
      assert before[..k] == calls[..k];
      LabelIsLastMark(before, k);
    }
  }

  // ------------------------------------------------------------------ programs that resolve

  lemma {:induction false} MarkDefines(calls: seq<Call>, name: string)
    requires Mark(name) in calls
    ensures name in LabelsOf(calls) && LabelsOf(calls)[name] % 4 == 0
    ensures 0 <= LabelsOf(calls)[name] <= 4 * |CodeOf(calls)|
  {
    var n := |calls| - 1;
    var before := calls[..n];
    if calls[n] == Mark(name) {
    } else {
      assert Mark(name) in before;
      MarkDefines(before, name);
    }
  }

  lemma DistinctAppend(a: seq<Call>, b: seq<Call>)
    requires Distinct(a) && Distinct(b)
    requires forall c, d | c in a && d in b :: c.Mark? && d.Mark? ==> c.name != d.name
    ensures Distinct(a + b)
  {
    forall i, j | 0 <= i < j < |a + b| && (a + b)[i].Mark? && (a + b)[j].Mark?
      ensures (a + b)[i].name != (a + b)[j].name
    {
      if i < |a| <= j { assert a[i] in a && b[j - |a|] in b; }
    }
  }

  lemma {:induction false} JumpsWereEmitted(calls: seq<Call>)
    ensures forall i | i in CodeOf(calls) && IsJump(i) :: Emit(i) in calls
  {
    hide Encodable, LiCode;
    if calls == [] {
    } else {
      var n := |calls| - 1;
      JumpsWereEmitted(calls[..n]);
      match calls[n]
      case Load(rd, imm) => LiEncodable(rd, imm);
      case _ =>
    }
  }

  lemma {:induction false} CodeBound(calls: seq<Call>)
    ensures |CodeOf(calls)| <= 2 * |calls|
  {
    if calls == [] {
    } else {
      CodeBound(calls[..|calls| - 1]);
    }
  }

  /** A program of less than 4 KiB resolves once every name it jumps to is marked. */
  lemma ShortProgramsResolve(calls: seq<Call>)
    requires 4 * |CodeOf(calls)| < 0x1000
    requires forall c | c in calls :: c.Emit? && IsJump(c.i) ==> Mark(c.i.to) in calls
    ensures AllResolvable(CodeOf(calls), LabelsOf(calls))
  {
    hide CodeOf, LabelsOf;
    ShiftValues();
    JumpsWereEmitted(calls);
    var code, labels := CodeOf(calls), LabelsOf(calls);
    forall k | 0 <= k < |code| ensures Resolvable(code[k], k, labels) {
      if IsJump(code[k]) {
        assert Emit(code[k]) in calls;
        MarkDefines(calls, code[k].to);
      }
    }
  }

  // ------------------------------------------------------------------ what the words mean

  /** The symbolic program runs on its instructions; a jump goes where its label was put. */
  function Target(i: Insn<string>, labels: Labels, base: word): word {
    if IsJump(i) && i.to in labels then Wrap(base + labels[i.to]) else 0
  }

  function SymStep(code: Code, labels: Labels, base: word, m: Machine, card: Card): (r: Machine)
    requires Sane(m)
    ensures Sane(r)
  {
    match Index(m.pc, base, |code|)
    case None => m
    case Some(k) => Effect(code[k], m, card).(pc := NextPc(code[k], m, Target(code[k], labels, base)))
  }

  function SymRun(code: Code, labels: Labels, base: word, m: Machine, card: Card, n: nat): (r: Machine)
    requires Sane(m)
    ensures Sane(r)
    decreases n
  {
    if n == 0 then m else SymRun(code, labels, base, SymStep(code, labels, base, m, card), card, n - 1)
  }

  predicate AllEncodable(code: Code) {
    forall k | 0 <= k < |code| :: IsJump(code[k]) || Encodable(code[k])
  }

  /** Each word is a 32-bit word that decodes to its symbolic instruction, a jump reaching
      exactly its label. */
  lemma WordMeaning(code: Code, labels: Labels, k: nat)
    requires AllEncodable(code) && AllResolvable(code, labels) && k < |code|
    ensures var w, off := FinalWords(code, labels)[k], if IsJump(code[k]) then Offset(code[k], k, labels) else 0;
      w < W32 && Decode(w) == Some(Meaning(code[k], off))
  {
    hide PlainWord, JumpWord, InReach, Encodable, Decode;
    assert Resolvable(code[k], k, labels);
    if IsJump(code[k]) {
      JumpDecodes(code[k], Offset(code[k], k, labels));
    } else {
      PlainDecodes(code[k]);
    }
  }

  lemma MeaningEffect(i: Insn<string>, off: int, m: Machine, card: Card)
    requires Sane(m)
    ensures Effect(Meaning(i, off), m, card) == Effect(i, m, card)
  {
    hide AndWord, OrWord, XorWord, StoreWord, StoreByte, LoadValue, Loaded, InSram;
    if i.Lui? {
      LuiWraps(i.imm20);
    }
  }

  lemma LuiWraps(imm: int)
    ensures Wrap(imm % 0x10_0000 * 0x1000) == Wrap(imm * 0x1000)
  {
    var q, r := imm / 0x10_0000, imm % 0x10_0000;
    assert imm * 0x1000 == q * W32 + r * 0x1000;
    DivModUnique(imm * 0x1000, W32, q, r * 0x1000);
    DivModUnique(r * 0x1000, W32, 0, r * 0x1000);
  }

  lemma MeaningNextPc(i: Insn<string>, off: int, m: Machine, target: word)
    requires Sane(m)
    ensures NextPc(Meaning(i, off), m, target) == NextPc(i, m, target)
  {
  }

  lemma StepAgrees(code: Code, labels: Labels, base: word, m: Machine, card: Card)
    requires AllEncodable(code) && AllResolvable(code, labels) && Sane(m)
    ensures Step(WordsOf(code, labels), base, m, card) == SymStep(code, labels, base, m, card)
  {
    hide Effect, NextPc, Decode, FinalWords, InReach, Encodable;
    match Index(m.pc, base, |code|)
    case None =>
    case Some(k) =>
      var i := code[k];
      WordMeaning(code, labels, k);
      var off := if IsJump(i) then Offset(i, k, labels) else 0;
      MeaningEffect(i, off, m, card);
      if IsJump(i) {
        assert Resolvable(i, k, labels);
        JumpTarget(i, k, labels, base, m.pc);
      }
      MeaningNextPc(i, off, m, Target(i, labels, base));
  }

  lemma JumpTarget(i: Insn<string>, k: nat, labels: Labels, base: word, pc: word)
    requires IsJump(i) && Resolvable(i, k, labels) && pc == base + 4 * k
    ensures Wrap(pc + Offset(i, k, labels)) == Target(i, labels, base)
  {
  }

  /** The final words, as a program in memory. */
  function WordsOf(code: Code, labels: Labels): (r: seq<word>)
    requires AllEncodable(code) && AllResolvable(code, labels)
    ensures |r| == |code| && forall k | 0 <= k < |code| :: r[k] == FinalWords(code, labels)[k]
  {
    assert forall k | 0 <= k < |code| :: FinalWords(code, labels)[k] < W32 by {
      forall k | 0 <= k < |code| ensures FinalWords(code, labels)[k] < W32 { WordMeaning(code, labels, k); }
    }
    seq(|code|, k requires 0 <= k < |code| => FinalWords(code, labels)[k])
  }

  /** Assembling preserves meaning: for every program that resolves, every run of its words
      is, step for step, the run of its symbolic instructions. */
  lemma {:induction false} AssemblingPreservesMeaning(code: Code, labels: Labels, base: word, m: Machine, card: Card,
                                                      n: nat)
    requires AllEncodable(code) && AllResolvable(code, labels) && Sane(m)
    ensures Run(WordsOf(code, labels), base, m, card, n) == SymRun(code, labels, base, m, card, n)
    decreases n
  {
    hide SymStep, Step, WordsOf;
    if n == 0 {
    } else {
      StepAgrees(code, labels, base, m, card);
      AssemblingPreservesMeaning(code, labels, base, SymStep(code, labels, base, m, card), card, n - 1);
    }
  }

  lemma {:induction false} AcceptedEncodable(calls: seq<Call>)
    requires Accepted(calls)
    ensures AllEncodable(CodeOf(calls))
  {
    hide Encodable, LiCode;
    if calls == [] {
    } else {
      var n := |calls| - 1;
      assert calls[n] in calls;
      AcceptedEncodable(calls[..n]);
      match calls[n]
      case Load(rd, imm) => LiEncodable(rd, imm);
      case _ =>
    }
  }

  /** The whole tool: make the calls, resolve, and hand out the words.  It succeeds exactly
      when every immediate is accepted and every jump resolves, and then every run of the
      words, wherever they are loaded, is the run of the symbolic program. */
  method Assemble(calls: seq<Call>) returns (words: seq<word>, ok: bool)
    ensures ok <==> Accepted(calls) && AllResolvable(CodeOf(calls), LabelsOf(calls))
    ensures ok ==> forall base: word, m: Machine, card: Card, n: nat | Sane(m) ::
      Run(words, base, m, card, n) == SymRun(CodeOf(calls), LabelsOf(calls), base, m, card, n)
  {
    hide Accepted, AllResolvable, CodeOf, LabelsOf, FinalWords, Run, SymRun;
    words := [];
    var p;
    p, ok := Build(calls);
    if !ok { return; }
    ok := p.Resolve();
    if !ok { return; }
    AcceptedEncodable(calls);
    assert p.words == WordsOf(CodeOf(calls), LabelsOf(calls));
    words := p.words;
    forall base: word, m: Machine, card: Card, n: nat | Sane(m)
      ensures Run(words, base, m, card, n) == SymRun(CodeOf(calls), LabelsOf(calls), base, m, card, n)
    {
      AssemblingPreservesMeaning(CodeOf(calls), LabelsOf(calls), base, m, card, n);
    }
  }
}
