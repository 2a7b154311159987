/**
 * expr(): the entry point of the expression analyser.  A lone register,
 * constant, `*` or symbol is handled on a fast path that writes the
 * postfix buffer and the result directly; every other expression is
 * parsed by expr0 and then evaluated.  Both paths end the buffer with
 * ENDEXPR.
 *
 * The fast path is chosen by peeking at the 32-bit words of the token
 * buffer, not at whole tokens: a CONST occupies three words and a SYMBOL
 * two, so the word after the first one is the next token only when the
 * first is a single-word token.
 */
module ExprEntry {
  import opened Machine
  import opened Attrs
  import opened Tokens
  import opened Symbols
  import opened TokenClass
  import opened State
  import opened Parser
  import opened Evaluator

  /** A payload word (the value of a CONST, the string index of a SYMBOL)
      read as a code.  The model gives it no class and never reads it as
      EOL; the byte-level accident of a payload equal to EOL is not
      modelled. */
  const NOCODE: int := -1

  /** The n-th 32-bit word of a token sequence; past the end, EOL. */
  function WordAt(ts: seq<Token>, n: nat): (w: int)
    ensures w == NOCODE || 0 <= w < 256
    decreases |ts|
  {
    if |ts| == 0 then EOL
    else if n == 0 then CodeOf(ts[0])
    else if n < Words(ts[0]) then NOCODE
    else WordAt(ts[1..], n - Words(ts[0]))
  }

  /** The tokens from the cursor on. */
  function Ahead(s: St): seq<Token>
  {
    if s.tok < |s.toks| then s.toks[s.tok..] else []
  }

  /** tok.u32[n]. */
  function W(s: St, n: nat): int { WordAt(Ahead(s), n) }

  /** The fast-path test as expr() makes it: a single word followed by
      EOL that is neither CONST nor a special unary operator; a SYMBOL or
      register whose third word has a class below UNARY; or a CONST whose
      fourth word does. */
  predicate FastGuardAsWritten(s: St)
  {
    (W(s, 1) == EOL && W(s, 0) != CONST && Class(W(s, 0)) != SUNARY) ||
    ((W(s, 0) == SYMBOL || IsRegister(W(s, 0))) && Class(W(s, 2)) < UNARY) ||
    (W(s, 0) == CONST && Class(W(s, 3)) < UNARY)
  }

  /** The fast-path test with its first shape limited to the single-word
      tokens the fast path handles, a register and `*`. */
  predicate FastGuard(s: St)
  {
    (W(s, 1) == EOL && (IsRegister(W(s, 0)) || W(s, 0) == '*' as int)) ||
    ((W(s, 0) == SYMBOL || IsRegister(W(s, 0))) && Class(W(s, 2)) < UNARY) ||
    (W(s, 0) == CONST && Class(W(s, 3)) < UNARY)
  }

  /** The first half of the fast path for a symbol or string: consumes
      the token, looks the label up (creating it), marks it REFERENCED,
      reports an undefined register equate outside a `#` immediate, and
      makes the bank check. */
  function Touch(s: St, name: string): (r: (St, SymKey))
    ensures r.1 == SymKey(name, Label, EnvOf(name, s.line.curenv)) && r.1 in r.0.symtab
    ensures Referenced in r.0.symtab[r.1].sattr
    ensures r.0.buf == s.buf && r.0.symptr == s.symptr
    ensures Remaining(r.0) + 1 == Remaining(s) || Remaining(s) == 0
    ensures Kept(s, r.0)
  {
    var s1 := Next(s);
    var ik := Intern(s1.symtab, name, Label, EnvOf(name, s.line.curenv));
    var k := ik.1;
    var sy := ik.0[k];
    var s2 := s1.(symtab := ik.0[k := sy.(sattr := sy.sattr + {Referenced})]);
    var s3 := if UndefEqur in sy.sattre && !s.risc.riscImm then Fail(s2, UndefRegEquate(name)) else s2;
    (BankCheck(s3, sy.sattre, name), k)
  }

  /** The fast path for a symbol or string: after Touch, emits the
      reference.  The value is the symbol's (0 when undefined), cut to 5
      bits for an equated register; an undefined global symbol becomes the
      external symbol, and otherwise the caller's is left as it was. */
  function FastSymbol(s: St, name: string, prior: Option<SymKey>): (r: (Status, Outcome, St))
    ensures r.0 == OK && Kept(s, r.2)
    ensures r.2.buf == s.buf + [CSym(|s.symptr|), CEnd]
    ensures |r.2.symptr| == |s.symptr| + 1 && r.2.symptr[|s.symptr|] in r.2.symtab
    ensures var sy := r.2.symtab[r.2.symptr[|s.symptr|]];
      Referenced in sy.sattr && Global !in r.1.attr &&
      (EquatedReg in sy.sattre ==> r.1.value < 32) &&
      (Defined !in sy.sattr ==> r.1.value == 0) &&
      (r.1.esym != prior ==> r.1.esym == Some(r.2.symptr[|s.symptr|]) && Global in sy.sattr && Defined !in sy.sattr)
  {
    var t := Touch(s, name);
    var s4 := t.0;
    var k := t.1;
    var sy := s4.symtab[k];
    var v := if Defined in sy.sattr then sy.svalue else 0;
    (OK, Outcome(if EquatedReg in sy.sattre then v % 32 else v, sy.sattr - {Global},
                 if Global in sy.sattr && Defined !in sy.sattr then Some(k) else prior),
     s4.(buf := s4.buf + [CSym(|s4.symptr|), CEnd], symptr := s4.symptr + [k]))
  }

  /** The fast path of expr(), on the token at the cursor. */
  function FastPath(s: St, prior: Option<SymKey>): (r: (Status, Outcome, St))
    ensures r.0 == OK ==> |r.2.buf| == |s.buf| + 2 && r.2.buf[..|s.buf|] == s.buf && r.2.buf[|s.buf| + 1] == CEnd
    ensures r.0 == OK ==> Remaining(r.2) + 1 == Remaining(s)
    ensures IsRegister(PeekCode(s)) ==> r == (OK, Outcome(PeekCode(s) - KW_R0, {Defined}, None),
                                               Emit(Next(s), [CConst(PeekCode(s) - KW_R0), CEnd]))
    ensures Peek(s).Const? ==> r.0 == OK && r.1 == Outcome(Peek(s).v, {Defined}, None)
    ensures Peek(s) == Op('*' as int) ==> r.0 == OK && r.1 == Outcome(StarValue(s), HereAttr(s), None)
    ensures r.0 == ERROR <==> !IsRegister(PeekCode(s)) && !Peek(s).Const? && PeekCode(s) != '*' as int && !Named(Peek(s))
    ensures r.0 == ERROR ==> r.2 == Fail(Next(s), UndefRiscRegister)
    ensures Kept(s, r.2)
  {
    var t := Peek(s);
    var c := CodeOf(t);
    var s1 := Next(s);
    if IsRegister(c) then (OK, Outcome(c - KW_R0, {Defined}, None), Emit(s1, [CConst(c - KW_R0), CEnd]))
    else if t.Const? then (OK, Outcome(t.v, {Defined}, None), Emit(s1, [CConst(t.v), CEnd]))
    else if c == '*' as int then
      (OK, Outcome(StarValue(s), HereAttr(s), None), Emit(s1, [CConst(StarValue(s)), CEnd]))
    else if Named(t) then FastSymbol(s, NameOf(t), prior)
    else (ERROR, Outcome(0, {}, prior), Fail(s1, UndefRiscRegister))
  }

  /** The general path: expr0, then ENDEXPR, then evexpr. */
  function Slow(s: St, prior: Option<SymKey>): (r: (Status, Outcome, St))
    ensures Parse0(s).0 == OK ==> r.2.buf == Parse0(s).1.buf + [CEnd]
    ensures Parse0(s).0 != OK ==> r.0 == ERROR && r.2 == Parse0(s).1
    ensures Kept(s, r.2)
  {
    var p := Parse0(s);
    if p.0 != OK then (ERROR, Outcome(0, {}, prior), p.1)
    else Evaluate(Emit(p.1, [CEnd]), prior)
  }

  /** expr(): the buffer is started afresh, then the fast path or the
      general one is taken.  On success the buffer ends with ENDEXPR. */
  function ExprSpec(s: St, prior: Option<SymKey>): (r: (Status, Outcome, St))
    ensures r.0 == OK ==> |r.2.buf| > 0 && r.2.buf[|r.2.buf| - 1] == CEnd
    ensures Remaining(r.2) <= Remaining(s)
    ensures Kept(s, r.2)
  {
    var s0 := s.(buf := []);
    if FastGuard(s0) then FastPath(s0, prior) else Slow(s0, prior)
  }

  /** expr() with the fast-path test as written. */
  function ExprAsWritten(s: St, prior: Option<SymKey>): (r: (Status, Outcome, St))
    ensures r.0 == OK ==> |r.2.buf| > 0 && r.2.buf[|r.2.buf| - 1] == CEnd
  {
    var s0 := s.(buf := []);
    if FastGuardAsWritten(s0) then FastPath(s0, prior) else Slow(s0, prior)
  }

  // ---------------------------------------------------------------------
  // In place
  // ---------------------------------------------------------------------

  /** The class of a word, from the table; a payload word has none. */
  function WordClass(g: Ctx, w: int): (k: int)
    requires g.Ready()
    reads g.tokenClass
    ensures k == Class(w)
  {
    if 0 <= w < 256 then g.tokenClass[w] else END
  }

  method BankWarnings(g: Ctx, e: set<ExtFlag>, name: string)
    modifies g
    ensures g.Snap() == BankCheck(old(g.Snap()), e, name)
  {
    if EquatedReg in e {
      if g.risc.regbank == BankZero && InBank1 in e && !g.risc.altbankok {
        ReportWarning(g, BankConflict0(name));
      }
      if g.risc.regbank == BankOne && InBank0 in e && !g.risc.altbankok {
        ReportWarning(g, BankConflict1(name));
      }
    }
  }

  method TouchSymbol(g: Ctx, name: string) returns (k: SymKey)
    modifies g
    ensures (g.Snap(), k) == Touch(old(g.Snap()), name)
  {
    var env := EnvOf(name, g.line.curenv);
    Advance(g);
    var ik := Intern(g.symtab, name, Label, env);
    k := ik.1;
    var sy := ik.0[k];
    g.symtab := ik.0[k := sy.(sattr := sy.sattr + {Referenced})];
    if UndefEqur in sy.sattre && !g.risc.riscImm {
      ReportError(g, UndefRegEquate(name));
    }
    BankWarnings(g, sy.sattre, name);
  }

  method FastSymbolRef(g: Ctx, name: string, prior: Option<SymKey>) returns (st: Status, out: Outcome)
    modifies g
    ensures (st, out, g.Snap()) == FastSymbol(old(g.Snap()), name, prior)
  {
    var k := TouchSymbol(g, name);
    var sy := g.symtab[k];
    g.buf, g.symptr := g.buf + [CSym(|g.symptr|), CEnd], g.symptr + [k];
    var v := if Defined in sy.sattr then sy.svalue else 0;
    if EquatedReg in sy.sattre {
      v := v % 32;
    }
    st, out := OK, Outcome(v, sy.sattr - {Global}, if Global in sy.sattr && Defined !in sy.sattr then Some(k) else prior);
  }

  method Fast(g: Ctx, prior: Option<SymKey>) returns (st: Status, out: Outcome)
    modifies g
    ensures (st, out, g.Snap()) == FastPath(old(g.Snap()), prior)
  {
    var t := g.Cur();
    var c := CodeOf(t);
    if IsRegister(c) {
      Advance(g);
      g.buf := g.buf + [CConst(c - KW_R0), CEnd];
      st, out := OK, Outcome(c - KW_R0, {Defined}, None);
    } else if t.Const? {
      Advance(g);
      g.buf := g.buf + [CConst(t.v), CEnd];
      st, out := OK, Outcome(t.v, {Defined}, None);
    } else if c == '*' as int {
      var v := (if g.risc.orgactive then g.risc.orgaddr else g.line.pcloc) % TWO32;
      var a := SectAttr(g.sect.cursect) + {Defined};
      Advance(g);
      g.buf := g.buf + [CConst(v), CEnd];
      st, out := OK, Outcome(v, a, None);
    } else if Named(t) {
      st, out := FastSymbolRef(g, NameOf(t), prior);
    } else {
      Advance(g);
      ReportError(g, UndefRiscRegister);
      st, out := ERROR, Outcome(0, {}, prior);
    }
  }

  /** The fast-path test, with the classes read from the table. */
  method TakeFast(g: Ctx) returns (b: bool)
    requires g.Ready()
    ensures b == FastGuard(g.Snap())
  {
    var s := g.Snap();
    var w0, w1, w2, w3 := W(s, 0), W(s, 1), W(s, 2), W(s, 3);
    b := (w1 == EOL && (IsRegister(w0) || w0 == '*' as int)) ||
         ((w0 == SYMBOL || IsRegister(w0)) && WordClass(g, w2) < UNARY) ||
         (w0 == CONST && WordClass(g, w3) < UNARY);
  }

  method Expr(g: Ctx, prior: Option<SymKey>) returns (st: Status, out: Outcome)
    requires g.Ready()
    modifies g
    ensures (st, out, g.Snap()) == ExprSpec(old(g.Snap()), prior)
  {
    g.buf := [];
    var fast := TakeFast(g);
    if fast {
      st, out := Fast(g, prior);
      return;
    }
    st := Expr0(g);
    if st != OK {
      return ERROR, Outcome(0, {}, prior);
    }
    g.buf := g.buf + [CEnd];
    st, out := EvExpr(g, prior);
  }
}
