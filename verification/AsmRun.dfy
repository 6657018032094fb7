/** Running a symbolic program from one place in its list of calls to another. */
module AsmRun {
  import opened Bits
  import opened Rv32
  import opened Encoding
  import opened Assembler

  /** A program built by `calls`, loaded at `base`, with a card behind the SPI port. */
  datatype Env = Env(calls: seq<Call>, base: word, card: Card) {
    function Code(): Assembler.Code { CodeOf(calls) }
    function Labels(): Assembler.Labels { LabelsOf(calls) }
  }

  /** The program fits the address space and gives each name once. */
  predicate Loadable(e: Env) {
    e.base + 4 * |e.Code()| < W32 && Distinct(e.calls)
  }

  function Go(e: Env, m: Machine, n: nat): (r: Machine)
    requires Sane(m)
    ensures Sane(r)
  {
    SymRun(e.Code(), e.Labels(), e.base, m, e.card, n)
  }

  lemma {:induction false} GoAdd(e: Env, m: Machine, a: nat, b: nat)
    requires Sane(m)
    ensures Go(e, m, a + b) == Go(e, Go(e, m, a), b)
    decreases a
  {
    hide SymStep;
    if a == 0 {
    } else {
      var s := SymStep(e.Code(), e.Labels(), e.base, m, e.card);
      GoAdd(e, s, a - 1, b);
      assert Go(e, m, a + b) == Go(e, s, a - 1 + b);
    }
  }

  // ------------------------------------------------------------------ places

  /** The code index reached when the first p calls have been made. */
  function Here(e: Env, p: nat): nat
    requires p <= |e.calls|
  {
    |CodeOf(e.calls[..p])|
  }

  function PcAt(e: Env, p: nat): word
    requires p <= |e.calls|
  {
    Wrap(e.base + 4 * Here(e, p))
  }

  /** The calls of `macro` stand at place p. */
  ghost predicate Placed(e: Env, p: nat, macro: seq<Call>) {
    p + |macro| <= |e.calls| && forall k | 0 <= k < |macro| :: e.calls[p + k] == macro[k]
  }

  lemma PlacedSplit(e: Env, p: nat, a: seq<Call>, b: seq<Call>)
    requires Placed(e, p, a + b)
    ensures Placed(e, p, a) && Placed(e, p + |a|, b)
  {
    forall k | 0 <= k < |a| ensures e.calls[p + k] == a[k] {
      assert (a + b)[k] == a[k];
    }
    forall k | 0 <= k < |b| ensures e.calls[p + |a| + k] == b[k] {
      assert (a + b)[|a| + k] == b[k];
    }
  }

  lemma PlacedFits(e: Env, p: nat, macro: seq<Call>)
    requires Placed(e, p, macro)
    ensures p + |macro| <= |e.calls|
  {
  }

  lemma {:induction false} CodeOfAppend(a: seq<Call>, b: seq<Call>)
    ensures CodeOf(a + b) == CodeOf(a) + CodeOf(b)
    decreases |b|
  {
    hide CallCode;
    if b == [] {
      assert a + b == a;
    } else {
      var n := |b| - 1;
      assert (a + b)[..|a + b| - 1] == a + b[..n];
      CodeOfAppend(a, b[..n]);
    }
  }

  /** The code of one call stands at the index its place reaches. */
  lemma CallCodeAt(e: Env, p: nat)
    requires p < |e.calls|
    ensures var code, here := CallCode(e.calls[p]), Here(e, p);
      && Here(e, p + 1) == here + |code| <= |e.Code()|
      && forall j | 0 <= j < |code| :: e.Code()[here + j] == code[j]
  {
    hide LiCode;
    var upto, post := e.calls[..p + 1], e.calls[p + 1..];
    assert upto + post == e.calls && upto[..p] == e.calls[..p];
    CodeOfAppend(upto, post);
  }

  lemma InRange(e: Env, p: nat)
    requires Loadable(e) && p <= |e.calls|
    ensures Here(e, p) <= |e.Code()| && PcAt(e, p) == e.base + 4 * Here(e, p)
  {
    assert e.calls[..p] + e.calls[p..] == e.calls;
    CodeOfAppend(e.calls[..p], e.calls[p..]);
  }

  // ------------------------------------------------------------------ runs between places

  /** Some number of steps takes the machine from state m at place p to state n at q.
      The program counters m and n themselves carry do not matter. */
  ghost predicate Leads(e: Env, p: nat, m: Machine, q: nat, n: Machine) {
    && p <= |e.calls| && q <= |e.calls| && Sane(m) && Sane(n)
    && exists k: nat :: Go(e, m.(pc := PcAt(e, p)), k) == n.(pc := PcAt(e, q))
  }

  lemma LeadsRefl(e: Env, p: nat, m: Machine)
    requires p <= |e.calls| && Sane(m)
    ensures Leads(e, p, m, p, m)
  {
    hide PcAt;
    assert Go(e, m.(pc := PcAt(e, p)), 0) == m.(pc := PcAt(e, p));
  }

  lemma LeadsTrans(e: Env, p: nat, m: Machine, q: nat, n: Machine, r: nat, o: Machine)
    requires Leads(e, p, m, q, n) && Leads(e, q, n, r, o)
    ensures Leads(e, p, m, r, o)
  {
    hide PcAt, Go;
    var a: nat :| Go(e, m.(pc := PcAt(e, p)), a) == n.(pc := PcAt(e, q));
    var b: nat :| Go(e, n.(pc := PcAt(e, q)), b) == o.(pc := PcAt(e, r));
    GoAdd(e, m.(pc := PcAt(e, p)), a, b);
  }

  /** One instruction, from its index in the code. */
  lemma OneStep(e: Env, m: Machine, k: nat)
    requires Sane(m) && m.pc == e.base + 4 * k && k < |e.Code()|
    ensures var i := e.Code()[k];
      Go(e, m, 1) == Effect(i, m, e.card).(pc := NextPc(i, m, Assembler.Target(i, e.Labels(), e.base)))
  {
    hide Effect, NextPc, Assembler.Target;
    var s := SymStep(e.Code(), e.Labels(), e.base, m, e.card);
    assert Index(m.pc, e.base, |e.Code()|) == Some(k);
    assert SymRun(e.Code(), e.Labels(), e.base, s, e.card, 0) == s;
  }

  predicate Straight(i: Insn<string>) { !IsJump(i) && !i.Jalr? }

  lemma EffectMovesPc(i: Insn<string>, m: Machine, card: Card, pc: word)
    requires Sane(m) && Straight(i)
    ensures Effect(i, m.(pc := pc), card) == Effect(i, m, card).(pc := pc)
  {
    hide AndWord, OrWord, XorWord, StoreWord, StoreByte, LoadValue, Loaded, InSram;
  }

  /** A straight-line instruction, one code index onward. */
  lemma StraightStep(e: Env, m: Machine, k: nat)
    requires Sane(m) && k < |e.Code()| && Straight(e.Code()[k]) && e.base + 4 * (k + 1) < W32
    ensures Go(e, m.(pc := e.base + 4 * k), 1) == Effect(e.Code()[k], m, e.card).(pc := e.base + 4 * (k + 1))
  {
    hide Effect;
    var at := m.(pc := e.base + 4 * k);
    OneStep(e, at, k);
    EffectMovesPc(e.Code()[k], m, e.card, at.pc);
  }

  // ------------------------------------------------------------------ one call

  /** What a call that does not jump does to the machine. */
  function Exec(c: Call, m: Machine, card: Card): (n: Machine)
    requires Sane(m)
    ensures Sane(n)
  {
    match c
    case Emit(i) => Effect(i, m, card)
    case Load(rd, imm) => Set(m, rd, Wrap(imm))
    case Mark(_) => m
  }

  predicate Falls(c: Call) { c.Emit? ==> Straight(c.i) }

  lemma LiStates(rd: reg, imm: int, m: Machine, card: Card)
    requires Sane(m)
    ensures var code := LiCode(rd, imm);
      && 1 <= |code| <= 2 && Straight(code[0]) && Straight(code[|code| - 1])
      && if |code| == 1 then Effect(code[0], m, card) == Set(m, rd, Wrap(imm))
         else Effect(code[1], Effect(code[0], m, card), card) == Set(m, rd, Wrap(imm))
  {
    var v := AsSigned32(imm);
    SignedWraps(imm);
    if !(-0x800 <= v < 0x800) {
      var upper := (v + 0x800) / 0x1000;
      var lower := v - upper * 0x1000;
      WrapSum(upper * 0x1000, lower);
      assert m.regs[rd := Wrap(upper * 0x1000)][rd := Wrap(imm)] == m.regs[rd := Wrap(imm)];
    }
  }

  lemma SignedWraps(imm: int)
    ensures Wrap(AsSigned32(imm)) == Wrap(imm) && -0x8000_0000 <= AsSigned32(imm) < 0x8000_0000
  {
  }

  lemma WrapSum(a: int, b: int)
    ensures Wrap(Wrap(a) + b) == Wrap(a + b)
  {
  }

  lemma LeadsLoad(e: Env, p: nat, m: Machine)
    requires Loadable(e) && p < |e.calls| && Sane(m) && e.calls[p].Load?
    ensures Leads(e, p, m, p + 1, Exec(e.calls[p], m, e.card))
  {
    hide Effect, LiCode, Set, Go, CodeOf, Straight;
    var c := e.calls[p];
    CallCodeAt(e, p);
    InRange(e, p);
    InRange(e, p + 1);
    LiStates(c.rd, c.imm, m, e.card);
    var k, code := Here(e, p), LiCode(c.rd, c.imm);
    assert e.Code()[k] == code[0];
    StraightStep(e, m, k);
    if |code| == 2 {
      assert e.Code()[k + 1] == code[1];
      var s := Effect(code[0], m, e.card);
      StraightStep(e, s, k + 1);
      GoAdd(e, m.(pc := PcAt(e, p)), 1, 1);
      assert Go(e, m.(pc := PcAt(e, p)), 2) == Exec(c, m, e.card).(pc := PcAt(e, p + 1));
    }
  }

  /** A call that does not jump falls through to the next. */
  lemma LeadsCall(e: Env, p: nat, m: Machine)
    requires Loadable(e) && p < |e.calls| && Sane(m) && Falls(e.calls[p])
    ensures Leads(e, p, m, p + 1, Exec(e.calls[p], m, e.card))
  {
    hide Effect, LiCode, Set, Go, CodeOf, Straight;
    var c := e.calls[p];
    match c
    case Load(_, _) => LeadsLoad(e, p, m);
    case Mark(_) =>
      CallCodeAt(e, p);
      LeadsRefl(e, p, m);
    case Emit(i) =>
      CallCodeAt(e, p);
      InRange(e, p);
      InRange(e, p + 1);
      assert e.Code()[Here(e, p)] == CallCode(c)[0];
      StraightStep(e, m, Here(e, p));
  }

  /** Continue a run through call k of a macro standing at p. */
  lemma Do(e: Env, p0: nat, m0: Machine, p: nat, macro: seq<Call>, k: nat, m: Machine) returns (n: Machine)
    requires Loadable(e) && Placed(e, p, macro) && k < |macro| && Leads(e, p0, m0, p + k, m)
    requires Falls(macro[k])
    ensures Sane(m) && n == Exec(macro[k], m, e.card) && Leads(e, p0, m0, p + k + 1, n)
  {
    hide Exec, Falls;
    assert Sane(m);
    n := Exec(macro[k], m, e.card);
    assert e.calls[p + k] == macro[k];
    LeadsCall(e, p + k, m);
    LeadsTrans(e, p0, m0, p + k, m, p + k + 1, n);
  }

  lemma MarkStays(c: Call, m: Machine, card: Card)
    requires Sane(m) && c.Mark?
    ensures Exec(c, m, card) == m
  {
  }

  /** Storing to the UART data register prints the low byte. */
  lemma UartStore(m: Machine, r: reg, card: Card)
    requires Sane(m) && Get(m, S0) == UART_BASE
    ensures Exec(Emit(Sw(r, 4, S0)), m, card) == m.(bus := m.bus.(printed := m.bus.printed + [Get(m, r) % 256]))
  {
  }

  // ------------------------------------------------------------------ jumps

  predicate Taken(i: Insn<string>, m: Machine)
    requires Sane(m)
  {
    match i
    case Beq(rs1, rs2, _) => Get(m, rs1) == Get(m, rs2)
    case Bne(rs1, rs2, _) => Get(m, rs1) != Get(m, rs2)
    case _ => true
  }

  /** A jump that keeps no return address. */
  predicate Jumps(c: Call) { c.Emit? && IsJump(c.i) && (c.i.Jal? ==> c.i.rd == ZERO) }

  /** The place where a name is marked. */
  predicate MarkedAt(e: Env, q: nat, name: string) { q < |e.calls| && e.calls[q] == Mark(name) }

  lemma JumpStep(e: Env, m: Machine, k: nat, off: nat)
    requires Sane(m) && k < |e.Code()| && IsJump(e.Code()[k]) && e.base + 4 * (k + 1) < W32
    requires e.Code()[k].Jal? ==> e.Code()[k].rd == ZERO
    requires e.Code()[k].to in e.Labels() && e.Labels()[e.Code()[k].to] == off
    ensures var i, at := e.Code()[k], m.(pc := e.base + 4 * k);
      Go(e, at, 1) == m.(pc := if Taken(i, m) then Wrap(e.base + off) else e.base + 4 * (k + 1))
  {
    hide Go, CodeOf, LabelsOf;
    OneStep(e, m.(pc := e.base + 4 * k), k);
  }

  /** A jump to a name marked at place q goes on at place q, or at the next call. */
  lemma LeadsJump(e: Env, p: nat, m: Machine, q: nat)
    requires Loadable(e) && p < |e.calls| && Sane(m) && Jumps(e.calls[p])
    requires MarkedAt(e, q, e.calls[p].i.to)
    ensures Leads(e, p, m, if Taken(e.calls[p].i, m) then q else p + 1, m)
  {
    hide Go, CodeOf, LabelsOf, Taken;
    CallCodeAt(e, p);
    InRange(e, p);
    InRange(e, p + 1);
    assert e.Code()[Here(e, p)] == CallCode(e.calls[p])[0];
    LabelIsLastMark(e.calls, q);
    JumpStep(e, m, Here(e, p), 4 * Here(e, q));
  }

  /** Continue a run through jump k of a macro standing at p. */
  lemma Jump(e: Env, p0: nat, m0: Machine, p: nat, macro: seq<Call>, k: nat, m: Machine, q: nat)
    requires Loadable(e) && Placed(e, p, macro) && k < |macro| && Leads(e, p0, m0, p + k, m)
    requires Jumps(macro[k]) && MarkedAt(e, q, macro[k].i.to)
    ensures Sane(m) && Leads(e, p0, m0, if Taken(macro[k].i, m) then q else p + k + 1, m)
  {
    hide Taken;
    assert Sane(m);
    assert e.calls[p + k] == macro[k];
    LeadsJump(e, p + k, m, q);
    LeadsTrans(e, p0, m0, p + k, m, if Taken(macro[k].i, m) then q else p + k + 1, m);
  }

  /** Registers outside `changed` are as before. */
  ghost predicate Keeps(m: Machine, n: Machine, changed: set<reg>)
    requires Sane(m) && Sane(n)
  {
    forall r: reg | r !in changed :: Get(n, r) == Get(m, r)
  }

  // ------------------------------------------------------------------ machine code

  /** The program was built and resolved without an error, and fits where it is loaded. */
  predicate Assembled(e: Env) { Loadable(e) && Accepted(e.calls) && AllResolvable(e.Code(), e.Labels()) }

  function Words(e: Env): seq<word>
    requires Assembled(e)
  {
    AcceptedEncodable(e.calls);
    WordsOf(e.Code(), e.Labels())
  }

  /** What the symbolic program does, the assembled words do. */
  lemma LeadsInMachineCode(e: Env, p: nat, m: Machine, q: nat, n: Machine) returns (steps: nat)
    requires Assembled(e) && Leads(e, p, m, q, n)
    ensures Run(Words(e), e.base, m.(pc := PcAt(e, p)), e.card, steps) == n.(pc := PcAt(e, q))
  {
    hide CodeOf, LabelsOf, PcAt, WordsOf, AllEncodable, AllResolvable, Accepted;
    AcceptedEncodable(e.calls);
    steps :| Go(e, m.(pc := PcAt(e, p)), steps) == n.(pc := PcAt(e, q));
    AssemblingPreservesMeaning(e.Code(), e.Labels(), e.base, m.(pc := PcAt(e, p)), e.card, steps);
  }
}
