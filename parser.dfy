/**
 * The recursive-descent parser of the expression analyser: it reads the
 * infix tokens at the cursor and appends the expression, in postfix form,
 * to the expression buffer.
 *
 * expr0 parses a run of binary operators, all of one precedence and
 * associating to the left; expr1 parses the unary and special unary
 * operators; expr2 parses terminals and bracketed groups.  Each level is a
 * function on snapshots (Parse0, Parse1, Parse2) and a method on the
 * context (Expr0, Expr1, Expr2) proved to agree with it.
 */
module Parser {
  import opened Machine
  import opened Attrs
  import opened Tokens
  import opened Symbols
  import opened TokenClass
  import opened State
  import opened ExprInit

  /** The outcome of a parsing step and the state it leaves. */
  type Parsed = (Status, St)

  /** Appends cells to the expression buffer. */
  function Emit(s: St, cells: seq<Cell>): (r: St)
    ensures r.buf == s.buf + cells
    ensures Remaining(r) == Remaining(s)
  {
    s.(buf := s.buf + cells)
  }

  // ---------------------------------------------------------------------
  // Symbol references and the register-bank check
  // ---------------------------------------------------------------------

  /** An equated register belongs to the bank that is not active, and the
      alternate bank has not been allowed. */
  predicate WrongBank(rs: Risc, e: set<ExtFlag>)
  {
    EquatedReg in e && !rs.altbankok &&
    ((rs.regbank == BankZero && InBank1 in e) || (rs.regbank == BankOne && InBank0 in e))
  }

  /** The warning the bank check gives for a register of the wrong bank. */
  function BankMsg(rs: Risc, name: string): Msg
  {
    if rs.regbank == BankZero then BankConflict0(name) else BankConflict1(name)
  }

  /** The register-bank check made on every symbol an expression uses. */
  function BankCheck(s: St, e: set<ExtFlag>, name: string): (r: St)
    ensures r.diags == s.diags + (if WrongBank(s.risc, e) then [Warning(BankMsg(s.risc, name))] else [])
    ensures r == s.(diags := r.diags)
  {
    if EquatedReg in e then
      var s1 := if s.risc.regbank == BankZero && InBank1 in e && !s.risc.altbankok
                then Warn(s, BankConflict0(name)) else s;
      if s1.risc.regbank == BankOne && InBank0 in e && !s1.risc.altbankok
      then Warn(s1, BankConflict1(name)) else s1
    else s
  }

  /** A symbol operand: looks the label up in its environment, creating it
      when absent, checks its bank, and appends a reference to the next
      slot of the symbol-pointer table. */
  function RefSym(s: St, name: string): (r: St)
    ensures r.symptr == s.symptr + [SymKey(name, Label, EnvOf(name, s.line.curenv))]
    ensures r.buf == s.buf + [CSym(|s.symptr|)]
    ensures r.symptr[|s.symptr|] in r.symtab
    ensures Remaining(r) == Remaining(s)
    ensures Kept(s, r)
  {
    var ik := Intern(s.symtab, name, Label, EnvOf(name, s.line.curenv));
    var s1 := BankCheck(s.(symtab := ik.0), ik.0[ik.1].sattre, name);
    s1.(buf := s1.buf + [CSym(|s1.symptr|)], symptr := s1.symptr + [ik.1])
  }

  // ---------------------------------------------------------------------
  // The three levels, on snapshots
  // ---------------------------------------------------------------------

  /** Consumes the token at the cursor and demands that it be `code`. */
  function Expect(s: St, code: Code, m: Msg): (r: Parsed)
    ensures Remaining(r.1) <= Remaining(s)
    ensures Kept(s, r.1)
    ensures r.1 == s.(tok := r.1.tok, diags := r.1.diags)
    ensures r.0 == OK <==> PeekCode(s) == code
  {
    if PeekCode(s) == code then (OK, Next(s)) else (ERROR, Fail(Next(s), m))
  }

  /** expr0: an operand, then any number of (binary operator, operand). */
  function Parse0(s: St): (r: Parsed)
    ensures Remaining(r.1) <= Remaining(s)
    ensures Kept(s, r.1)
    decreases Remaining(s), 3
  {
    var r1 := Parse1(s);
    if r1.0 != OK then (ERROR, r1.1) else Parse0Loop(r1.1)
  }

  /** The loop of expr0: while the token at the cursor has a binary
      class, consume it, parse the right operand, and emit the operator. */
  function Parse0Loop(s: St): (r: Parsed)
    ensures Remaining(r.1) <= Remaining(s)
    ensures Kept(s, r.1)
    decreases Remaining(s), 2
  {
    var t := PeekCode(s);
    if Class(t) >= MULT then
      ClassOfEol();
      var r1 := Parse1(Next(s));
      if r1.0 != OK then (ERROR, r1.1) else Parse0Loop(Emit(r1.1, [COp(t)]))
    else (OK, s)
  }

  /** One round of the loop of expr0, when the token at the cursor has a
      binary class. */
  lemma Parse0LoopUnfold(s: St)
    requires Class(PeekCode(s)) >= MULT
    ensures PeekCode(s) != EOL
    ensures var r1 := Parse1(Next(s));
      Parse0Loop(s) == if r1.0 != OK then (ERROR, r1.1) else Parse0Loop(Emit(r1.1, [COp(PeekCode(s))]))
  {
    ClassOfEol();
  }

  /** expr1: a unary operator and its operand (parsed by expr2), a special
      unary operator, or else an expr2 operand. */
  function Parse1(s: St): (r: Parsed)
    ensures Remaining(r.1) <= Remaining(s)
    ensures Kept(s, r.1)
    decreases Remaining(s), 1
  {
    var t := PeekCode(s);
    if t == '-' as int || t == '+' as int || Class(t) == UNARY then
      ClassOfEol();
      var r2 := Parse2(Next(s));
      if r2.0 != OK then (ERROR, r2.1)
      else if t == '+' as int then (OK, r2.1)
      else (OK, Emit(r2.1, [COp(if t == '-' as int then UNMINUS else t)]))
    else if Class(t) == SUNARY then Special(s)
    else Parse2(s)
  }

  /** Whether a token names a string (a symbol or a string literal). */
  predicate Named(t: Token) { t.Symbol? || t.Str? }

  function NameOf(t: Token): string
    requires Named(t)
  {
    if t.Symbol? then t.name else t.text
  }

  /** A special unary operator (^^defined, ^^referenced, ^^streq,
      ^^macdef, ^^date, ^^time, ^^abscount): each becomes exactly one
      constant, and none creates a symbol. */
  function Special(s: St): (r: Parsed)
    requires Class(PeekCode(s)) == SUNARY
    ensures Remaining(r.1) <= Remaining(s)
    ensures Kept(s, r.1)
    ensures r.1.symptr == s.symptr && r.1.symtab == s.symtab
    ensures r.0 == OK ==> |r.1.buf| == |s.buf| + 1 && r.1.buf[..|s.buf|] == s.buf && r.1.buf[|s.buf|].CConst?
    ensures r.0 != OK ==> r.1.buf == s.buf
  {
    var op := PeekCode(s);
    var s1 := Next(s);
    if op == CR_MACDEF || op == CR_DEFINED || op == CR_REFERENCED then
      var t := Peek(s1);
      var s2 := Next(s1);
      if !t.Symbol? then (ERROR, Fail(s2, MissingSymbol))
      else (OK, Emit(s2, [CConst(SymQuery(s, op, t.name))]))
    else if op == CR_STREQ then StrEq(s1)
    else
      var v := if op == CR_TIME then s.line.time
               else if op == CR_DATE then s.line.date
               else SavedOf(s.sect.saved, SAbs).sloc % TWO32;   // CR_ABSCOUNT
      (OK, Emit(s1, [CConst(v)]))
  }

  /** The operands of ^^streq: two names separated by a comma; the
      constant is 1 when they are the same string. */
  function StrEq(s: St): (r: Parsed)
    ensures Remaining(r.1) <= Remaining(s)
    ensures Kept(s, r.1)
    ensures r.1.symptr == s.symptr && r.1.symtab == s.symtab
    ensures r.0 == OK ==> |r.1.buf| == |s.buf| + 1 && r.1.buf[..|s.buf|] == s.buf && r.1.buf[|s.buf|] in {CConst(0), CConst(1)}
    ensures r.0 != OK ==> r.1.buf == s.buf
  {
    var t1 := Peek(s);
    if !Named(t1) then (ERROR, Fail(s, MissingSymbolOrString))
    else
      var r := Expect(Next(s), ',' as int, MissingComma);
      var t2 := Peek(r.1);
      if r.0 != OK then r
      else if !Named(t2) then (ERROR, Fail(r.1, MissingSymbolOrString))
      else (OK, Emit(Next(r.1), [CConst(if NameOf(t1) == NameOf(t2) then 1 else 0)]))
  }

  /** The value of ^^macdef, ^^defined or ^^referenced applied to a name:
      1 when a macro of that name exists, or when the label exists and has
      DEFINED (REFERENCED) set; 0 otherwise.  No symbol is created. */
  function SymQuery(s: St, op: Code, name: string): (v: Word)
    ensures v <= 1
  {
    if op == CR_MACDEF then
      (if Lookup(s.symtab, name, Macro, 0).Some? then 1 else 0)
    else
      var k := Lookup(s.symtab, name, Label, EnvOf(name, s.line.curenv));
      var w := if op == CR_DEFINED then Defined else Referenced;
      if k.Some? && w in s.symtab[k.value].sattr then 1 else 0
  }

  /** The attribute `$` and `*` carry: the current section, DEFINED. */
  function HereAttr(s: St): Attr { SectAttr(s.sect.cursect) + {Defined} }

  /** The value of `*`: the org'd address inside an .org, else the
      location at the start of the line, as a 32-bit word. */
  function StarValue(s: St): Word
  {
    (if s.risc.orgactive then s.risc.orgaddr else s.line.pcloc) % TWO32
  }

  /** expr2: a terminal or a bracketed group; the token is consumed first. */
  function Parse2(s: St): (r: Parsed)
    ensures Remaining(r.1) <= Remaining(s)
    ensures Kept(s, r.1)
    decreases Remaining(s), 0
  {
    var t := Peek(s);
    var s1 := Next(s);
    match t
    case Const(v) => (OK, Emit(s1, [CConst(v)]))
    case FConst(b) => (OK, Emit(s1, [CFConst(b)]))
    case Symbol(name) => (OK, RefSym(s1, name))
    case Str(text) => (OK, Emit(s1, [CConst(StrValue(CText(text)))]))
    case Op(c) =>
      if c == '(' as int || c == '[' as int || c == '{' as int then Parse2Group(s1, c)
      else if c == '$' as int then
        (OK, Emit(s1, [CAConst(s.sect.sloc % TWO32, HereAttr(s))]))
      else if c == '*' as int then
        (OK, Emit(s1, [CAConst(StarValue(s), HereAttr(s))]))
      else (ERROR, Fail(s1, BadExpression))
  }

  // ---------------------------------------------------------------------
  // The three levels, in place
  // ---------------------------------------------------------------------

  method RefSymbol(g: Ctx, name: string)
    modifies g
    ensures g.Snap() == RefSym(old(g.Snap()), name)
  {
    var ik := Intern(g.symtab, name, Label, EnvOf(name, g.line.curenv));
    g.symtab := ik.0;
    var e := ik.0[ik.1].sattre;
    if EquatedReg in e {
      if g.risc.regbank == BankZero && InBank1 in e && !g.risc.altbankok {
        ReportWarning(g, BankConflict0(name));
      }
      if g.risc.regbank == BankOne && InBank0 in e && !g.risc.altbankok {
        ReportWarning(g, BankConflict1(name));
      }
    }
    g.buf, g.symptr := g.buf + [CSym(|g.symptr|)], g.symptr + [ik.1];
  }

  method ExpectToken(g: Ctx, code: Code, m: Msg) returns (st: Status)
    modifies g
    ensures (st, g.Snap()) == Expect(old(g.Snap()), code, m)
  {
    var c := CodeOf(g.Cur());
    Advance(g);
    if c == code {
      st := OK;
    } else {
      ReportError(g, m);
      st := ERROR;
    }
  }

  method Expr0(g: Ctx) returns (st: Status)
    requires g.Ready()
    modifies g
    ensures (st, g.Snap()) == Parse0(old(g.Snap()))
    decreases Remaining(g.Snap()), 3
  {
    st := Expr1(g);
    if st != OK {
      st := ERROR;
      return;
    }
    ghost var goal := Parse0Loop(g.Snap());
    while g.tokenClass[CodeOf(g.Cur())] >= MULT
      invariant Parse0Loop(g.Snap()) == goal
      invariant Remaining(g.Snap()) <= Remaining(old(g.Snap()))
      decreases Remaining(g.Snap())
    {
      var t := CodeOf(g.Cur());
      Parse0LoopUnfold(g.Snap());
      ghost var r1 := Parse1(Next(g.Snap()));
      Advance(g);
      st := Expr1(g);
      if st != OK {
        st := ERROR;
        return;
      }
      assert g.Snap() == r1.1;
      g.buf := g.buf + [COp(t)];
      assert g.Snap() == Emit(r1.1, [COp(t)]);
    }
    st := OK;
  }

  method Expr1(g: Ctx) returns (st: Status)
    requires g.Ready()
    modifies g
    ensures (st, g.Snap()) == Parse1(old(g.Snap()))
    decreases Remaining(g.Snap()), 1
  {
    var t := CodeOf(g.Cur());
    var k := g.tokenClass[t];
    if t == '-' as int || t == '+' as int || k == UNARY {
      ClassOfEol();
      Advance(g);
      st := Expr2(g);
      if st != OK {
        st := ERROR;
        return;
      }
      if t != '+' as int {
        g.buf := g.buf + [COp(if t == '-' as int then UNMINUS else t)];
      }
    } else if k == SUNARY {
      st := SpecialOperator(g);
    } else {
      st := Expr2(g);
    }
  }

  method SpecialOperator(g: Ctx) returns (st: Status)
    requires Class(CodeOf(g.Cur())) == SUNARY
    modifies g
    ensures (st, g.Snap()) == Special(old(g.Snap()))
  {
    var op := CodeOf(g.Cur());
    var s := g.Snap();
    Advance(g);
    st := OK;
    if op == CR_MACDEF || op == CR_DEFINED || op == CR_REFERENCED {
      var t := g.Cur();
      Advance(g);
      if !t.Symbol? {
        ReportError(g, MissingSymbol);
        st := ERROR;
      } else {
        g.buf := g.buf + [CConst(SymQuery(s, op, t.name))];
      }
    } else if op == CR_STREQ {
      st := StrEqOperands(g);
    } else if op == CR_TIME {
      g.buf := g.buf + [CConst(g.line.time)];
    } else if op == CR_DATE {
      g.buf := g.buf + [CConst(g.line.date)];
    } else {
      g.buf := g.buf + [CConst(SavedOf(g.sect.saved, SAbs).sloc % TWO32)];
    }
  }

  method StrEqOperands(g: Ctx) returns (st: Status)
    modifies g
    ensures (st, g.Snap()) == StrEq(old(g.Snap()))
  {
    var t1 := g.Cur();
    if !Named(t1) {
      ReportError(g, MissingSymbolOrString);
      return ERROR;
    }
    Advance(g);
    st := ExpectToken(g, ',' as int, MissingComma);
    if st != OK {
      return;
    }
    var t2 := g.Cur();
    if !Named(t2) {
      ReportError(g, MissingSymbolOrString);
      return ERROR;
    }
    Advance(g);
    g.buf := g.buf + [CConst(if NameOf(t1) == NameOf(t2) then 1 else 0)];
  }

  method Expr2(g: Ctx) returns (st: Status)
    requires g.Ready()
    modifies g
    ensures (st, g.Snap()) == Parse2(old(g.Snap()))
    decreases Remaining(g.Snap()), 0
  {
    var t := g.Cur();
    var here := g.sect.sloc % TWO32;
    var attr := SectAttr(g.sect.cursect) + {Defined};
    var star := (if g.risc.orgactive then g.risc.orgaddr else g.line.pcloc) % TWO32;
    Advance(g);
    match t
    case Const(v) =>
      g.buf := g.buf + [CConst(v)];
      st := OK;
    case FConst(b) =>
      g.buf := g.buf + [CFConst(b)];
      st := OK;
    case Symbol(name) =>
      RefSymbol(g, name);
      st := OK;
    case Str(text) =>
      var v := StrValueOf(text);
      g.buf := g.buf + [CConst(v)];
      st := OK;
    case Op(c) =>
      if c == '(' as int || c == '[' as int || c == '{' as int {
        st := Group(g, c);
      } else if c == '$' as int {
        g.buf := g.buf + [CAConst(here, attr)];
        st := OK;
      } else if c == '*' as int {
        g.buf := g.buf + [CAConst(star, attr)];
        st := OK;
      } else {
        ReportError(g, BadExpression);
        st := ERROR;
      }
  }

  /** The bracketed groups of expr2, entered after the opening token. */
  method Group(g: Ctx, open: Code) returns (st: Status)
    requires g.Ready()
    requires open == '(' as int || open == '[' as int || open == '{' as int
    modifies g
    ensures (st, g.Snap()) == Parse2Group(old(g.Snap()), open)
    decreases Remaining(g.Snap()), 4
  {
    st := Expr0(g);
    if st != OK {
      return;
    }
    if open == '(' as int {
      st := ExpectToken(g, ')' as int, MissingParen);
    } else if open == '[' as int {
      st := ExpectToken(g, ']' as int, MissingBracket);
    } else {
      st := ExpectToken(g, ':' as int, MissingColon);
      if st != OK {
        return;
      }
      st := Expr0(g);
      if st != OK {
        return;
      }
      st := ExpectToken(g, '}' as int, MissingBrace);
    }
  }

  /** A bracketed group, after its opening token: `(e)`, `[e]` or
      `{e:e}`, each closed by its own token. */
  function Parse2Group(s: St, open: Code): (r: Parsed)
    requires open == '(' as int || open == '[' as int || open == '{' as int
    ensures Remaining(r.1) <= Remaining(s)
    ensures Kept(s, r.1)
    decreases Remaining(s), 4
  {
    var r0 := Parse0(s);
    if r0.0 != OK then r0
    else if open == '(' as int then Expect(r0.1, ')' as int, MissingParen)
    else if open == '[' as int then Expect(r0.1, ']' as int, MissingBracket)
    else
      var rc := Expect(r0.1, ':' as int, MissingColon);
      if rc.0 != OK then rc
      else
        var r1 := Parse0(rc.1);
        if r1.0 != OK then r1 else Expect(r1.1, '}' as int, MissingBrace)
  }

  /** EOL has no class, so the parser's loops stop at the end of a
      statement. */
  lemma ClassOfEol()
    ensures Class(EOL) == END
  {
  }
}
