/**
 * What expr() promises: the fast path gives what the general path
 * (expr0 then evexpr) gives for the shapes it is meant for, it succeeds
 * on every shape its test admits, and an expression that parses never
 * makes the evaluator run short of operands.
 */
module ExprFacts {
  import opened Machine
  import opened Attrs
  import opened Tokens
  import opened Symbols
  import opened TokenClass
  import opened State
  import opened Parser
  import opened Evaluator
  import opened Operators
  import opened ExprEntry
  import ParserFacts
  import EvalFacts

  /** A token stream as the tokenizer makes it: the codes CONST, FCONST,
      SYMBOL and STRING only ever head their multi-word tokens. */
  predicate WellFormed(s: St)
  {
    forall i :: s.tok <= i < |s.toks| ==> !(s.toks[i].Op? && s.toks[i].code in {CONST, FCONST, SYMBOL, STRING})
  }

  /** The word after a token is the code of the next token. */
  lemma WordAfter(s: St)
    requires s.tok < |s.toks|
    ensures W(s, Words(Peek(s))) == PeekCode(Next(s))
  {
    var ts := Ahead(s);
    assert ts[0] == Peek(s);
    assert ts[1..] == Ahead(Next(s));
    assert W(s, Words(Peek(s))) == WordAt(ts[1..], 0);
    if s.tok + 1 < |s.toks| {
      assert ts[1..][0] == Peek(Next(s));
    }
  }

  /** An operand that is a single terminal, with no binary operator
      after it, parses to what expr2 makes of it. */
  lemma Parse0Terminal(s: St)
    requires PeekCode(s) != '-' as int && PeekCode(s) != '+' as int
    requires Class(PeekCode(s)) != UNARY && Class(PeekCode(s)) != SUNARY
    requires Parse2(s).0 == OK && Class(PeekCode(Parse2(s).1)) < MULT
    ensures Parse0(s) == Parse2(s)
  {
    assert Parse1(s) == Parse2(s);
  }

  /** Evaluating a constant then ENDEXPR gives the constant. */
  lemma EvaluatePush(e: St, c: Cell, prior: Option<SymKey>)
    requires e.buf == [c, CEnd] && (c.CConst? || c.CAConst?)
    ensures Evaluate(e, prior) == (OK, Outcome(c.v, if c.CConst? then {Defined} else c.attr, None), e)
  {
    var ev := Ev([], None, e.symtab);
    RunStep(e.buf, 0, ev, e.symptr, e.line.fpu);
    RunStep(e.buf, 1, Step(c, ev, e.symptr, e.line.fpu).ev, e.symptr, e.line.fpu);
  }

  /** The general path on a lone terminal. */
  lemma SlowOne(s0: St, prior: Option<SymKey>)
    requires PeekCode(s0) != '-' as int && PeekCode(s0) != '+' as int
    requires Class(PeekCode(s0)) != UNARY && Class(PeekCode(s0)) != SUNARY
    requires Parse2(s0).0 == OK && Class(PeekCode(Parse2(s0).1)) < MULT
    ensures Slow(s0, prior) == Evaluate(Emit(Parse2(s0).1, [CEnd]), prior)
  {
    Parse0Terminal(s0);
  }

  /** expr() takes the fast path exactly when its test holds. */
  lemma ExprTakes(s: St, prior: Option<SymKey>)
    ensures FastGuard(s.(buf := [])) ==> ExprSpec(s, prior) == FastPath(s.(buf := []), prior)
    ensures !FastGuard(s.(buf := [])) ==> ExprSpec(s, prior) == Slow(s.(buf := []), prior)
  {
  }

  /** The general path on a lone constant. */
  lemma SlowConst(s0: St, prior: Option<SymKey>)
    requires s0.buf == [] && Peek(s0).Const? && Class(PeekCode(Next(s0))) < MULT
    ensures Slow(s0, prior) == (OK, Outcome(Peek(s0).v, {Defined}, None), Emit(Next(s0), [CConst(Peek(s0).v), CEnd]))
  {
    var c := CConst(Peek(s0).v);
    ClassOfConst();
    assert Parse2(s0) == (OK, Emit(Next(s0), [c]));
    SlowOne(s0, prior);
    var e := Emit(Parse2(s0).1, [CEnd]);
    assert e.buf == [c, CEnd];
    assert e == Emit(Next(s0), [c, CEnd]);
    EvaluatePush(e, c, prior);
  }

  /** A lone constant is taken on the fast path, and that gives exactly
      what parsing and evaluating it would. */
  lemma FastConstAgrees(s: St, prior: Option<SymKey>)
    requires Peek(s).Const? && Class(PeekCode(Next(s))) < UNARY
    ensures FastGuard(s.(buf := []))
    ensures ExprSpec(s, prior) == Slow(s.(buf := []), prior)
  {
    var s0 := s.(buf := []);
    WordAfter(s0);
    ExprTakes(s, prior);
    SlowConst(s0, prior);
  }

  /** The general path on a lone `*`. */
  lemma SlowStar(s0: St, prior: Option<SymKey>)
    requires s0.buf == [] && Peek(s0) == Op('*' as int) && PeekCode(Next(s0)) == EOL
    ensures Slow(s0, prior) == (OK, Outcome(StarValue(s0), HereAttr(s0), None),
                                Emit(Next(s0), [CAConst(StarValue(s0), HereAttr(s0)), CEnd]))
  {
    var c := CAConst(StarValue(s0), HereAttr(s0));
    StarParses(s0);
    ClassOfStar();
    ClassOfEol();
    SlowOne(s0, prior);
    var e := Emit(Parse2(s0).1, [CEnd]);
    assert e.buf == [c, CEnd];
    assert e == Emit(Next(s0), [c, CEnd]);
    EvaluatePush(e, c, prior);
  }

  /** A lone `*` is taken on the fast path; it gives the value, attribute
      and external symbol the general path gives, and the same state but
      for the buffer, which holds a plain constant where the general path
      puts an ACONST. */
  lemma FastStarAgrees(s: St, prior: Option<SymKey>)
    requires Peek(s) == Op('*' as int) && PeekCode(Next(s)) == EOL
    ensures FastGuard(s.(buf := []))
    ensures var f := ExprSpec(s, prior); var g := Slow(s.(buf := []), prior);
      f.0 == g.0 == OK && f.1 == g.1 && f.2 == g.2.(buf := f.2.buf) &&
      f.2.buf == [CConst(StarValue(s)), CEnd] && g.2.buf == [CAConst(StarValue(s), HereAttr(s)), CEnd]
  {
    var s0 := s.(buf := []);
    WordAfter(s0);
    ExprTakes(s, prior);
    SlowStar(s0, prior);
  }

  lemma StarParses(s0: St)
    requires Peek(s0) == Op('*' as int)
    ensures Parse2(s0) == (OK, Emit(Next(s0), [CAConst(StarValue(s0), HereAttr(s0))]))
  {
  }

  lemma SymbolParses(s0: St, name: string)
    requires Peek(s0) == Symbol(name)
    ensures Parse2(s0) == (OK, RefSym(Next(s0), name))
  {
  }

  lemma ClassOfStar() ensures Class('*' as int) == MULT {}
  lemma ClassOfConst() ensures Class(CONST) == ID {}
  lemma ClassOfSymbol() ensures Class(SYMBOL) == ID {}

  /** expr2 on a symbol such as Plain describes. */
  lemma PlainParses(s0: St, name: string)
    requires s0.buf == [] && Peek(s0) == Symbol(name) && Plain(s0, name)
    ensures var k := SymKey(name, Label, EnvOf(name, s0.line.curenv));
      var s1 := Next(s0);
      Parse2(s0) == (OK, s1.(buf := [CSym(|s1.symptr|)], symptr := s1.symptr + [k]))
  {
    var k := SymKey(name, Label, EnvOf(name, s0.line.curenv));
    var s1 := Next(s0);
    RefSymQuiet(s1, name, k);
    assert s1.buf + [CSym(|s1.symptr|)] == [CSym(|s1.symptr|)];
    SymbolParses(s0, name);
  }

  /** The entry a symbol reference marks REFERENCED, and the value and
      attributes both paths give for it. */
  function Marked(tab: SymTab, k: SymKey): SymTab
    requires k in tab
  {
    tab[k := tab[k].(sattr := tab[k].sattr + {Referenced})]
  }

  function SymOutcome(tab: SymTab, k: SymKey): Outcome
    requires k in tab
  {
    var sa := tab[k].sattr + {Referenced};
    Outcome(if Defined in sa then tab[k].svalue else 0, sa - {Global},
            if Defined in sa then None else Some(k))
  }

  /** Evaluating a reference to a defined or global symbol, then ENDEXPR. */
  lemma EvaluateSym(e: St, k: SymKey)
    requires |e.buf| == 2 && e.buf[0].CSym? && e.buf[1] == CEnd
    requires e.buf[0].idx < |e.symptr| && e.symptr[e.buf[0].idx] == k && k in e.symtab
    requires Defined in e.symtab[k].sattr || Global in e.symtab[k].sattr
    ensures Evaluate(e, None) == (OK, SymOutcome(e.symtab, k), e.(symtab := Marked(e.symtab, k)))
  {
    var ev := Ev([], None, e.symtab);
    RunStep(e.buf, 0, ev, e.symptr, e.line.fpu);
    var st := SymbolStep(e.buf[0].idx, ev, e.symptr);
    var o := SymOutcome(e.symtab, k);
    assert st == Go(Ev([Entry(o.value, o.attr)], o.esym, Marked(e.symtab, k)));
    RunStep(e.buf, 1, st.ev, e.symptr, e.line.fpu);
    assert Finish(st.ev) == Value(Entry(o.value, o.attr), o.esym);
  }

  /** The symbol-table condition under which both paths agree on a
      symbol: present, defined or global, not an equated register and
      raising no undefined-equate error. */
  predicate Plain(s: St, name: string)
  {
    var k := SymKey(name, Label, EnvOf(name, s.line.curenv));
    k in s.symtab && s.symtab[k].stype == Label &&
    (Defined in s.symtab[k].sattr || Global in s.symtab[k].sattr) &&
    EquatedReg !in s.symtab[k].sattre && UndefEqur !in s.symtab[k].sattre
  }

  /** What both paths give on such a symbol. */
  function PlainResult(s: St, name: string): (Status, Outcome, St)
    requires Plain(s, name)
  {
    var k := SymKey(name, Label, EnvOf(name, s.line.curenv));
    (OK, SymOutcome(s.symtab, k),
     Next(s).(symtab := Marked(s.symtab, k), buf := s.buf + [CSym(|s.symptr|), CEnd], symptr := s.symptr + [k]))
  }

  /** The parser's symbol reference, for a symbol that is present and is
      not an equated register. */
  lemma RefSymQuiet(s: St, name: string, k: SymKey)
    requires k == SymKey(name, Label, EnvOf(name, s.line.curenv))
    requires k in s.symtab && s.symtab[k].stype == Label && EquatedReg !in s.symtab[k].sattre
    ensures RefSym(s, name) == s.(buf := s.buf + [CSym(|s.symptr|)], symptr := s.symptr + [k])
  {
  }

  /** The fast path on such a symbol. */
  lemma FastSymbolQuiet(s: St, name: string)
    requires Plain(s, name)
    ensures FastSymbol(s, name, None) == PlainResult(s, name)
  {
    var k := SymKey(name, Label, EnvOf(name, s.line.curenv));
    var t := Touch(s, name);
    assert t == (Next(s).(symtab := Marked(s.symtab, k)), k);
    assert t.0.symtab[k] == s.symtab[k].(sattr := s.symtab[k].sattr + {Referenced});
  }

  /** The postfix code the general path makes of such a symbol. */
  function PlainCode(s0: St, name: string): St
  {
    var s1 := Next(s0);
    s1.(buf := [CSym(|s1.symptr|), CEnd], symptr := s1.symptr + [SymKey(name, Label, EnvOf(name, s0.line.curenv))])
  }

  /** The general path on such a symbol parses it into PlainCode... */
  lemma SlowSymbolParsed(s0: St, name: string)
    requires s0.buf == [] && Peek(s0) == Symbol(name) && Class(PeekCode(Next(s0))) < MULT && Plain(s0, name)
    ensures Slow(s0, None) == Evaluate(PlainCode(s0, name), None)
  {
    var k := SymKey(name, Label, EnvOf(name, s0.line.curenv));
    var s1 := Next(s0);
    var p := s1.(buf := [CSym(|s1.symptr|)], symptr := s1.symptr + [k]);
    PlainParses(s0, name);
    ClassOfSymbol();
    SlowOne(s0, None);
    assert Emit(p, [CEnd]) == PlainCode(s0, name);
  }

  /** ... and evaluates that to what the fast path gives. */
  lemma EvaluatePlain(s0: St, name: string)
    requires s0.buf == [] && Plain(s0, name)
    ensures Evaluate(PlainCode(s0, name), None) == PlainResult(s0, name)
  {
    var k := SymKey(name, Label, EnvOf(name, s0.line.curenv));
    var e := PlainCode(s0, name);
    EvaluateSym(e, k);
    assert e.(symtab := Marked(e.symtab, k)) == PlainResult(s0, name).2;
  }

  /** A lone symbol that is defined or global, is not an equated register
      and raises no undefined-equate error is taken on the fast path, and
      that gives exactly what the general path gives when no external
      symbol was set before. */
  lemma FastSymbolAgrees(s: St, name: string)
    requires Peek(s) == Symbol(name) && Class(PeekCode(Next(s))) < UNARY && Plain(s, name)
    ensures FastGuard(s.(buf := []))
    ensures ExprSpec(s, None) == Slow(s.(buf := []), None)
  {
    var s0 := s.(buf := []);
    assert Peek(s0) == Symbol(name);
    WordAfter(s0);
    ExprTakes(s, None);
    assert FastPath(s0, None) == FastSymbol(s0, name, None);
    FastSymbolQuiet(s0, name);
    SlowSymbolParsed(s0, name);
    EvaluatePlain(s0, name);
    assert ExprSpec(s, None) == PlainResult(s0, name) == Slow(s0, None);
  }

  /** Every shape the fast-path test admits is one the fast path handles:
      on a well-formed stream it never reports an undefined register. */
  lemma FastGuardSucceeds(s: St, prior: Option<SymKey>)
    requires WellFormed(s) && FastGuard(s.(buf := []))
    ensures ExprSpec(s, prior).0 == OK
  {
    var s0 := s.(buf := []);
    assert Ahead(s0) == Ahead(s);
    if s.tok < |s.toks| {
      assert Ahead(s)[0] == Peek(s);
    }
  }

  /** An operand that refers only to known symbols, closed by ENDEXPR,
      meets the conditions under which evaluation never runs short. */
  lemma EndedOperand(p: St, cells: seq<Cell>)
    requires cells == p.buf + [CEnd]
    requires ParserFacts.Operand(p.buf) && ParserFacts.Resolved(p)
    ensures ParserFacts.Depth(cells[0..], 0) >= 1
    ensures EvalFacts.ResolvedFrom(cells, 0, p.symptr, p.symtab)
  {
    assert ParserFacts.Depth(p.buf, 0) >= 1;
    ParserFacts.DepthAppend(p.buf, [CEnd], 0);
    assert cells[0..] == cells;
    assert forall i :: 0 <= i < |p.buf| ==> cells[i] == p.buf[i];
  }

  /** The evaluation of what expr0 parsed never runs short of operands
      nor meets a reference it cannot resolve. */
  lemma ParsedNeverShort(s0: St)
    requires s0.buf == [] && Parse0(s0).0 == OK
    ensures var e := Emit(Parse0(s0).1, [CEnd]);
      Run(e.buf, 0, Ev([], None, e.symtab), e.symptr, e.line.fpu).0 !in
        {Failed(Undefined(StackUnderflow)), Failed(Undefined(DanglingSymbol))}
  {
    var p := Parse0(s0).1;
    ParserFacts.Parse0Sound(s0);
    assert ParserFacts.Out(s0, p) == p.buf;
    EndedOperand(p, p.buf + [CEnd]);
    EvalFacts.RunNeverShort(p.buf + [CEnd], 0, Ev([], None, p.symtab), p.symptr, p.line.fpu);
  }

  /** An expression that parses never makes the evaluator run short of
      operands, nor meet a symbol reference it cannot resolve: a failure
      of expr() is then never one of those two. */
  lemma ExprNeverShort(s: St, prior: Option<SymKey>)
    requires Parse0(s.(buf := [])).0 == OK
    ensures var r := ExprSpec(s, prior);
      r.0 == ERROR ==> r.2.diags[|r.2.diags| - 1] !in {Undefined(StackUnderflow), Undefined(DanglingSymbol)}
  {
    var s0 := s.(buf := []);
    ExprTakes(s, prior);
    if !FastGuard(s0) {
      ParsedNeverShort(s0);
    }
  }
}
