/**
 * The structure-offset directives .cargs and .cstruct: each listed symbol
 * becomes an absolute, defined, equated label whose value is the running
 * offset, and each item (symbol, register list or special register)
 * advances the offset by the space it takes.
 */
module Layouts {
  import opened Machine
  import opened Attrs
  import opened Tokens
  import opened Symbols
  import opened State
  import opened AbsExpression

  /** .cargs (C arguments above the return address) or .cstruct (the
      fields of a C structure). */
  datatype Kind = CArgs | CStruct

  /** A 16-bit register mask, bit i for register i (D0..D7, A0..A7). */
  type Mask = m: int | 0 <= m < 0x1_0000

  /** What reglist() leaves: whether it read a list, the mask, and the
      state after it (its own reports included). */
  datatype Listed = Listed(ok: bool, mask: Mask, t: St)

  /** reglist(), which is not part of this model, given as a parameter.
      A list it accepts starts at a register token and so takes at least
      one token; a result that takes none ends the directive, as a refusal
      would, which keeps the item loop finite. */
  type RegListFn = St -> Listed

  /** The number of registers in a mask. */
  function PopCount(m: nat): (n: nat)
    ensures n <= m
  {
    if m == 0 then 0 else m % 2 + PopCount(m / 2)
  }

  function TwoTo(n: nat): (p: nat)
    ensures p > 0
  {
    if n == 0 then 1 else 2 * TwoTo(n - 1)
  }

  /** A mask of n bits names at most n registers. */
  lemma {:induction false} PopCountBelow(m: nat, n: nat)
    requires m < TwoTo(n)
    ensures PopCount(m) <= n
  {
    if n > 0 && m > 0 {
      PopCountBelow(m / 2, n - 1);
    }
  }

  lemma SixteenBits()
    ensures TwoTo(16) == 0x1_0000
  {
    assert TwoTo(4) == 16;
    assert TwoTo(8) == 256;
    assert TwoTo(12) == 4096;
  }

  /** A register list takes four bytes per register, so at most 64. */
  lemma RegListSpace(m: Mask)
    ensures 4 * PopCount(m) <= 64
  {
    SixteenBits();
    PopCountBelow(m, 16);
  }

  /** Adding in 64 bits step by step is adding once and wrapping. */
  lemma WrapLater(x: int, y: int)
    ensures ToWord(ToWord(x) + y) == ToWord(x + y)
  {
  }

  /** The loop over the 16 bits of a register mask. */
  method RegSpace(eval: Word, mask: Mask) returns (e: Word)
    ensures e == Add(eval, 4 * PopCount(mask))
  {
    e := eval;
    var r: nat := mask;
    ghost var k := 0;
    SixteenBits();
    for i := 0 to 16
      invariant r < TwoTo(16 - i)
      invariant k + PopCount(r) == PopCount(mask)
      invariant e == ToWord(eval + 4 * k)
    {
      if r % 2 == 1 {
        WrapLater(eval + 4 * k, 4);
        e := Add(e, 4);
      }
      k := k + r % 2;
      r := r / 2;
    }
  }

  /** The space a symbol takes after its suffix code: in .cargs four bytes
      for `.l` and two otherwise; in .cstruct four, two or one for `.l`,
      `.w`, `.b`, and a symbol without a suffix is an error. */
  function FieldSize(kind: Kind, c: Code): nat
  {
    if c == DOTL then 4
    else if kind == CStruct && c == DOTB then 1
    else 2
  }

  /** The suffixes .cstruct accepts. */
  predicate Suffixed(c: Code) { c == DOTB || c == DOTW || c == DOTL }

  /** The offset a .cstruct field is given: words and longs are moved up
      to an even offset. */
  function FieldOffset(kind: Kind, c: Code, eval: Word): (v: Word)
    ensures kind == CStruct && (c == DOTW || c == DOTL) ==> v % 2 == 0
    ensures kind == CArgs || eval % 2 == 0 || !(c == DOTW || c == DOTL) ==> v == eval
  {
    if kind == CStruct && (c == DOTW || c == DOTL) then Add(eval, eval % 2) else eval
  }

  /** The key a symbol of this name is looked up and created under. */
  function KeyOf(s: St, name: string): SymKey
  {
    SymKey(name, Label, EnvOf(name, s.line.curenv))
  }

  /** Defining a symbol of the list: a label already defined is an error;
      otherwise it is created when absent, put on the declaration list
      once (sym_decl), made ABS|DEFINED|EQUATED, and given the value. */
  function Define(s: St, name: string, v: Word): (r: (Status, St))
    ensures var k := KeyOf(s, name);
      var found := Lookup(s.symtab, name, Label, k.env);
      && (r.0 == ERROR <==> found.Some? && Defined in s.symtab[k].sattr)
      && (r.0 == ERROR ==> r.1 == Fail(s, MultiplyDefined(name)))
      && (r.0 == OK ==>
           && r.1 == s.(symtab := r.1.symtab, decls := r.1.decls)
           && k in r.1.symtab && r.1.symtab == s.symtab[k := r.1.symtab[k]]
           && r.1.symtab[k].svalue == v && r.1.symtab[k].stype == Label
           && {Defined, Equated, SDeclList} <= r.1.symtab[k].sattr
           && Tdb(r.1.symtab[k].sattr) == (if found.Some? then Tdb(s.symtab[k].sattr) else {})
           && r.1.decls == if found.Some? && SDeclList in s.symtab[k].sattr then s.decls else s.decls + [k])
  {
    var k := KeyOf(s, name);
    if Lookup(s.symtab, name, Label, k.env).Some? && Defined in s.symtab[k].sattr then
      (ERROR, Fail(s, MultiplyDefined(name)))
    else
      var sy := if Lookup(s.symtab, name, Label, k.env).Some? then s.symtab[k] else NewSym(Label);
      var decls := if SDeclList in sy.sattr then s.decls else s.decls + [k];
      var sy1 := sy.(sattr := sy.sattr + {SDeclList, Defined, Equated}, svalue := v);
      (OK, s.(symtab := s.symtab[k := sy1], decls := decls))
  }

  /** Where one item leaves the list: ended, with the directive's status,
      or going on with the next offset. */
  datatype Turn = Stop(st: Status, t: St) | Go(t: St, eval: Word)

  /** A symbol item: the symbol is defined at the (aligned) offset and the
      offset moves past the space it takes. */
  function Field(kind: Kind, s: St, eval: Word): (r: Turn)
    requires Peek(s).Symbol?
    ensures r.Go? ==> Remaining(r.t) < Remaining(s)
    ensures var c := PeekCode(Next(s));
      var k := KeyOf(s, Peek(s).name);
      && (r.Go? <==> Define(s, Peek(s).name, FieldOffset(kind, c, eval)).0 == OK && (kind == CArgs || Suffixed(c)))
      && (r.Go? ==>
           && k in r.t.symtab
           && r.t.symtab[k].svalue == FieldOffset(kind, c, eval)
           && r.eval == Add(FieldOffset(kind, c, eval), FieldSize(kind, c))
           && r.t == Define(s, Peek(s).name, FieldOffset(kind, c, eval)).1.(tok := r.t.tok)
           && (Suffixed(c) ==> r.t.tok == s.tok + 2))
  {
    var name := Peek(s).name;
    var c := PeekCode(Next(s));
    var v := FieldOffset(kind, c, eval);
    var d := Define(s, name, v);
    if d.0 == ERROR then Stop(ERROR, d.1)
    else
      var u := Next(d.1);
      if kind == CArgs then
        Go(if c == DOTB || c == DOTW || c == DOTL then Next(u) else u, Add(v, FieldSize(kind, c)))
      else if Suffixed(c) then Go(Next(u), Add(v, FieldSize(kind, c)))
      else Stop(ERROR, Fail(u, CstructSuffix))
  }

  /** One item of the list: a symbol, a register list (four bytes per
      register), USP/SSP/PC (four bytes) or SR/CCR (two); the end of the
      line ends the directive and anything else is a syntax error. */
  function Item(kind: Kind, regs: RegListFn, s: St, eval: Word): (r: Turn)
    ensures r.Go? ==> Remaining(r.t) < Remaining(s)
  {
    var c := PeekCode(s);
    if Peek(s).Symbol? then Field(kind, s, eval)
    else if KW_D0 <= c <= KW_A7 then
      var l := regs(s);
      if !l.ok || Remaining(l.t) >= Remaining(s) then Stop(OK, l.t) else Go(l.t, Add(eval, 4 * PopCount(l.mask)))
    else if c == KW_USP || c == KW_SSP || c == KW_PC then Go(Next(s), Add(eval, 4))
    else if c == KW_SR || c == KW_CCR then Go(Next(s), Add(eval, 2))
    else if c == EOL then Stop(OK, s)
    else Stop(ERROR, Fail(s, if kind == CArgs then CargsSyntax else CstructSyntax))
  }

  /** A comma between items is optional. */
  function SkipComma(s: St): (r: St)
    ensures Remaining(r) <= Remaining(s)
  {
    if PeekCode(s) == ',' as int then Next(s) else s
  }

  /** The items, up to the end of the line or the first refusal. */
  function Items(kind: Kind, regs: RegListFn, s: St, eval: Word): (r: (Status, St))
    decreases Remaining(s)
  {
    match Item(kind, regs, s, eval)
    case Stop(st, t) => (st, t)
    case Go(t, e) => Items(kind, regs, SkipComma(t), e)
  }

  /** The starting offset: `#offset` (an absolute expression, optionally
      followed by a comma), or 4 for .cargs (the return address) and 0
      for .cstruct. */
  function Start(kind: Kind, s: St): (r: Turn)
    ensures PeekCode(s) != '#' as int ==> r == Go(s, if kind == CArgs then 4 else 0)
  {
    if PeekCode(s) == '#' as int then
      var a := AbsExpr(Next(s));
      if a.0 != OK then Stop(OK, a.2) else Go(SkipComma(a.2), a.1)
    else Go(s, if kind == CArgs then 4 else 0)
  }

  /** d_cargs and d_cstruct: refused in GPU or DSP mode. */
  function Layout(kind: Kind, regs: RegListFn, s: St): (r: (Status, St))
    ensures InRisc(s) ==> r == (ERROR, Fail(s, ForbiddenInRisc))
  {
    if InRisc(s) then (ERROR, Fail(s, ForbiddenInRisc))
    else
      match Start(kind, s)
      case Stop(st, t) => (st, t)
      case Go(t, e) => Items(kind, regs, t, e)
  }

  // ---------------------------------------------------------------------
  // In place
  // ---------------------------------------------------------------------

  /** Calls reglist() and takes over the state it leaves. */
  method ReadRegs(g: Ctx, regs: RegListFn) returns (l: Listed)
    modifies g
    ensures l == regs(old(g.Snap())) && g.Snap() == l.t
  {
    l := regs(g.Snap());
    var t := l.t;
    g.toks, g.tok, g.buf, g.symptr := t.toks, t.tok, t.buf, t.symptr;
    g.symtab, g.decls, g.sect, g.risc, g.line := t.symtab, t.decls, t.sect, t.risc, t.line;
    g.fixups, g.marks, g.diags := t.fixups, t.marks, t.diags;
  }

  method DefineOf(g: Ctx, name: string, v: Word) returns (st: Status)
    modifies g
    ensures (st, g.Snap()) == Define(old(g.Snap()), name, v)
  {
    var k := KeyOf(g.Snap(), name);
    var found := Lookup(g.symtab, name, Label, k.env);
    if found.Some? && Defined in g.symtab[k].sattr {
      ReportError(g, MultiplyDefined(name));
      return ERROR;
    }
    var sy := if found.Some? then g.symtab[k] else NewSym(Label);
    if SDeclList !in sy.sattr {
      g.decls := g.decls + [k];
    }
    g.symtab := g.symtab[k := sy.(sattr := sy.sattr + {SDeclList, Defined, Equated}, svalue := v)];
    st := OK;
  }

  method FieldOf(g: Ctx, kind: Kind, eval: Word) returns (r: Turn)
    requires g.Cur().Symbol?
    modifies g
    ensures r == Field(kind, old(g.Snap()), eval) && r.t == g.Snap()
  {
    ghost var s := g.Snap();
    var name := g.Cur().name;
    var c := if g.tok + 1 < |g.toks| then CodeOf(g.toks[g.tok + 1]) else EOL;
    assert name == Peek(s).name && c == PeekCode(Next(s));
    var v := FieldOffset(kind, c, eval);
    var st := DefineOf(g, name, v);
    ghost var d := Define(s, name, v);
    assert (st, g.Snap()) == d;
    if st == ERROR {
      return Stop(ERROR, g.Snap());
    }
    Advance(g);
    assert g.Snap() == Next(d.1);
    if kind == CArgs {
      if c == DOTB || c == DOTW || c == DOTL {
        Advance(g);
      }
    } else if Suffixed(c) {
      Advance(g);
    } else {
      ReportError(g, CstructSuffix);
      return Stop(ERROR, g.Snap());
    }
    r := Go(g.Snap(), Add(v, FieldSize(kind, c)));
  }

  method ItemOf(g: Ctx, kind: Kind, regs: RegListFn, eval: Word) returns (r: Turn)
    modifies g
    ensures r == Item(kind, regs, old(g.Snap()), eval) && r.t == g.Snap()
  {
    var t := g.Cur();
    var c := CodeOf(t);
    if t.Symbol? {
      r := FieldOf(g, kind, eval);
    } else if KW_D0 <= c <= KW_A7 {
      var before := Remaining(g.Snap());
      var l := ReadRegs(g, regs);
      if !l.ok || Remaining(g.Snap()) >= before {
        return Stop(OK, g.Snap());
      }
      var e := RegSpace(eval, l.mask);
      r := Go(g.Snap(), e);
    } else if c == KW_USP || c == KW_SSP || c == KW_PC {
      Advance(g);
      r := Go(g.Snap(), Add(eval, 4));
    } else if c == KW_SR || c == KW_CCR {
      Advance(g);
      r := Go(g.Snap(), Add(eval, 2));
    } else if c == EOL {
      r := Stop(OK, g.Snap());
    } else {
      ReportError(g, if kind == CArgs then CargsSyntax else CstructSyntax);
      r := Stop(ERROR, g.Snap());
    }
  }

  method DLayout(g: Ctx, kind: Kind, regs: RegListFn) returns (st: Status)
    requires g.Ready()
    modifies g
    ensures (st, g.Snap()) == Layout(kind, regs, old(g.Snap()))
  {
    if g.risc.rgpu || g.risc.rdsp {
      ReportError(g, ForbiddenInRisc);
      return ERROR;
    }
    var eval: Word := if kind == CArgs then 4 else 0;
    if CodeOf(g.Cur()) == '#' as int {
      Advance(g);
      var ok;
      ok, eval := AbsExprOf(g);
      if ok != OK {
        return OK;
      }
      if CodeOf(g.Cur()) == ',' as int {
        Advance(g);
      }
    }
    ghost var goal := Items(kind, regs, g.Snap(), eval);
    while true
      invariant Items(kind, regs, g.Snap(), eval) == goal
      decreases Remaining(g.Snap())
    {
      var r := ItemOf(g, kind, regs, eval);
      if r.Stop? {
        return r.st;
      }
      eval := r.eval;
      if CodeOf(g.Cur()) == ',' as int {
        Advance(g);
      }
    }
  }

  /** d_cargs. */
  method DCargs(g: Ctx, regs: RegListFn) returns (st: Status)
    requires g.Ready()
    modifies g
    ensures (st, g.Snap()) == Layout(CArgs, regs, old(g.Snap()))
  {
    st := DLayout(g, CArgs, regs);
  }

  /** d_cstruct. */
  method DCstruct(g: Ctx, regs: RegListFn) returns (st: Status)
    requires g.Ready()
    modifies g
    ensures (st, g.Snap()) == Layout(CStruct, regs, old(g.Snap()))
  {
    st := DLayout(g, CStruct, regs);
  }

  // ---------------------------------------------------------------------
  // Offsets
  // ---------------------------------------------------------------------

  /** In .cstruct, `.b` fields are packed and word and long fields start
      on an even offset; each field ends where the next may begin. */
  lemma CstructAligns(s: St, eval: Word)
    requires Peek(s).Symbol? && Field(CStruct, s, eval).Go?
    ensures var c := PeekCode(Next(s));
      var r := Field(CStruct, s, eval);
      var v := r.t.symtab[KeyOf(s, Peek(s).name)].svalue;
      && Suffixed(c)
      && (c == DOTB ==> v == eval && r.eval == Add(eval, 1))
      && (c != DOTB ==> v % 2 == 0 && v - eval in {0, 1, 1 - TWO64})
  {
  }

  /** A suffixed .cstruct field whose name is new: defined at the aligned
      offset, two tokens consumed, nothing else touched. */
  lemma NewField(s: St, eval: Word)
    requires Peek(s).Symbol? && Suffixed(PeekCode(Next(s)))
    requires KeyOf(s, Peek(s).name) !in s.symtab
    ensures var c := PeekCode(Next(s));
      var k := KeyOf(s, Peek(s).name);
      var f := Field(CStruct, s, eval);
      && f.Go? && f.t.tok == s.tok + 2 && f.t.toks == s.toks && f.t.risc == s.risc && f.t.line == s.line
      && f.eval == Add(FieldOffset(CStruct, c, eval), FieldSize(CStruct, c))
      && k in f.t.symtab && f.t.symtab == s.symtab[k := f.t.symtab[k]]
      && f.t.symtab[k].svalue == FieldOffset(CStruct, c, eval)
  {
  }

  /** A symbol defined by an earlier item (or before the directive) is
      never changed by later items: defining it again is refused.  The
      register lists are assumed to leave the symbol table alone. */
  lemma {:induction false} ItemsKeepDefined(kind: Kind, regs: RegListFn, s: St, eval: Word, k: SymKey)
    requires forall t :: regs(t).t.symtab == t.symtab
    requires k in s.symtab && Defined in s.symtab[k].sattr && s.symtab[k].stype == k.kind
    ensures var r := Items(kind, regs, s, eval);
      k in r.1.symtab && r.1.symtab[k] == s.symtab[k]
    decreases Remaining(s)
  {
    match Item(kind, regs, s, eval)
    case Stop(st, t) =>
      if Peek(s).Symbol? {
        var c := PeekCode(Next(s));
        var d := Define(s, Peek(s).name, FieldOffset(kind, c, eval));
        assert d.0 == OK ==> KeyOf(s, Peek(s).name) != k;
      }
    case Go(t, e) =>
      if Peek(s).Symbol? {
        var c := PeekCode(Next(s));
        var d := Define(s, Peek(s).name, FieldOffset(kind, c, eval));
        assert KeyOf(s, Peek(s).name) != k;
      }
      assert k in t.symtab && t.symtab[k] == s.symtab[k];
      ItemsKeepDefined(kind, regs, SkipComma(t), e, k);
  }

  /** .cargs without an offset: the first argument, a new name, is at 4,
      above the return address, and keeps that value to the end. */
  lemma CargsFirst(s: St, regs: RegListFn)
    requires forall t :: regs(t).t.symtab == t.symtab
    requires !InRisc(s) && Peek(s).Symbol? && KeyOf(s, Peek(s).name) !in s.symtab
    ensures var r := Layout(CArgs, regs, s);
      var k := KeyOf(s, Peek(s).name);
      k in r.1.symtab && r.1.symtab[k].svalue == 4
  {
    var k := KeyOf(s, Peek(s).name);
    var f := Field(CArgs, s, 4);
    assert Start(CArgs, s) == Go(s, 4);
    assert f.Go?;
    assert Item(CArgs, regs, s, 4) == f;
    ItemsKeepDefined(CArgs, regs, SkipComma(f.t), f.eval, k);
  }

  /** The statement `.cstruct a.b, b.w, c.l` after the directive. */
  const ExampleToks: seq<Token> :=
    [Symbol("a"), Op(DOTB), Op(',' as int), Symbol("b"), Op(DOTW), Op(',' as int),
     Symbol("c"), Op(DOTL), Op(EOL)]

  /** Its last field, `c.l`, at offset 4 (already even). */
  lemma ExampleLast(t: St, regs: RegListFn)
    requires t.toks == ExampleToks && t.tok == 6
    requires SymKey("c", Label, 0) !in t.symtab
    ensures var r := Items(CStruct, regs, t, 4);
      var kc := SymKey("c", Label, 0);
      && r.0 == OK && kc in r.1.symtab
      && r.1.symtab == t.symtab[kc := r.1.symtab[kc]] && r.1.symtab[kc].svalue == 4
  {
    assert KeyOf(t, "c") == SymKey("c", Label, 0) && PeekCode(Next(t)) == DOTL;
    NewField(t, 4);
    var f := Field(CStruct, t, 4);
    assert Items(CStruct, regs, f.t, 8) == (OK, f.t);
  }

  /** Its middle field, `b.w`, moved up from offset 1 to 2. */
  lemma ExampleMiddle(t: St, regs: RegListFn)
    requires t.toks == ExampleToks && t.tok == 3
    requires SymKey("b", Label, 0) !in t.symtab && SymKey("c", Label, 0) !in t.symtab
    ensures var r := Items(CStruct, regs, t, 1);
      var kb, kc := SymKey("b", Label, 0), SymKey("c", Label, 0);
      && r.0 == OK && kb in r.1.symtab && kc in r.1.symtab
      && r.1.symtab == t.symtab[kb := r.1.symtab[kb]][kc := r.1.symtab[kc]]
      && r.1.symtab[kb].svalue == 2 && r.1.symtab[kc].svalue == 4
  {
    assert KeyOf(t, "b") == SymKey("b", Label, 0) && PeekCode(Next(t)) == DOTW;
    NewField(t, 1);
    var f := Field(CStruct, t, 1);
    var u := SkipComma(f.t);
    assert u.tok == 6 && u.toks == ExampleToks;
    assert u.symtab == t.symtab[SymKey("b", Label, 0) := u.symtab[SymKey("b", Label, 0)]];
    ExampleLast(u, regs);
    assert Item(CStruct, regs, t, 1) == f;
    assert FieldOffset(CStruct, DOTW, 1) == Add(1, 1) == 2;
    assert f.eval == Add(2, 2) == 4;
  }

  /** `.cstruct a.b, b.w, c.l` from offset 0, with none of the names
      known: a at 0, b moved up to 2, c at 4. */
  lemma CstructExample(s: St, regs: RegListFn)
    requires !InRisc(s) && s.toks == ExampleToks && s.tok == 0
    requires SymKey("a", Label, 0) !in s.symtab && SymKey("b", Label, 0) !in s.symtab
    requires SymKey("c", Label, 0) !in s.symtab
    ensures var r := Layout(CStruct, regs, s);
      var ka, kb, kc := SymKey("a", Label, 0), SymKey("b", Label, 0), SymKey("c", Label, 0);
      && r.0 == OK && ka in r.1.symtab && kb in r.1.symtab && kc in r.1.symtab
      && r.1.symtab[ka].svalue == 0 && r.1.symtab[kb].svalue == 2 && r.1.symtab[kc].svalue == 4
  {
    assert Start(CStruct, s) == Go(s, 0);
    assert KeyOf(s, "a") == SymKey("a", Label, 0) && PeekCode(Next(s)) == DOTB;
    NewField(s, 0);
    var f := Field(CStruct, s, 0);
    ExampleMiddle(SkipComma(f.t), regs);
  }
}
