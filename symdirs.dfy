/**
 * The directives that act on symbols: .globl and .undefmac (through
 * symlist), .comm, .equrundef/.regundef, .ccundef and .assert.
 */
module SymbolDirectives {
  import opened Machine
  import opened Attrs
  import opened Tokens
  import opened Symbols
  import opened TokenClass
  import opened State
  import opened Parser
  import opened ExprEntry
  import opened AbsExpression

  /** A name starting with '.' is a local label. */
  predicate IsLocal(name: string) { |name| > 0 && name[0] == '.' }

  // ---------------------------------------------------------------------
  // symlist, .globl, .undefmac
  // ---------------------------------------------------------------------

  /** globl1(): a local name is refused; any other becomes GLOBAL, created
      with value 0 and no other attribute when it is not yet a label. */
  function Globl1(s: St, name: string): (r: (Status, St))
    ensures IsLocal(name) ==> r == (ERROR, Fail(s, GloblLocal))
    ensures !IsLocal(name) ==> var k := SymKey(name, Label, 0);
      && r.0 == OK && r.1 == s.(symtab := r.1.symtab)
      && k in r.1.symtab && Global in r.1.symtab[k].sattr && r.1.symtab[k].stype == Label
      && r.1.symtab.Keys == s.symtab.Keys + {k}
      && (forall j :: j in s.symtab && j != k ==> r.1.symtab[j] == s.symtab[j])
      && (Lookup(s.symtab, name, Label, 0).Some? ==>
            r.1.symtab[k].svalue == s.symtab[k].svalue && s.symtab[k].sattr <= r.1.symtab[k].sattr)
      && (Lookup(s.symtab, name, Label, 0).None? ==> r.1.symtab[k] == Sym({Global}, {}, 0, Label))
  {
    if IsLocal(name) then (ERROR, Fail(s, GloblLocal))
    else
      var k := SymKey(name, Label, 0);
      var sy := if Lookup(s.symtab, name, Label, 0).Some? then s.symtab[k].(sattr := s.symtab[k].sattr + {Global})
                else NewSym(Label).(svalue := 0, sattr := {Global});
      (OK, s.(symtab := s.symtab[k := sy]))
  }

  method Globl1Of(g: Ctx, name: string) returns (st: Status)
    modifies g
    ensures (st, g.Snap()) == Globl1(old(g.Snap()), name)
  {
    if IsLocal(name) {
      ReportError(g, GloblLocal);
      return ERROR;
    }
    var k := SymKey(name, Label, 0);
    if Lookup(g.symtab, name, Label, 0).Some? {
      g.symtab := g.symtab[k := g.symtab[k].(sattr := g.symtab[k].sattr + {Global})];
    } else {
      g.symtab := g.symtab[k := NewSym(Label).(svalue := 0, sattr := {Global})];
    }
    st := OK;
  }

  /** Marking a name global twice is marking it once. */
  lemma GloblIdempotent(s: St, name: string)
    requires !IsLocal(name)
    ensures Globl1(Globl1(s, name).1, name) == Globl1(s, name)
  {
    var k := SymKey(name, Label, 0);
    var t := Globl1(s, name).1;
    assert Lookup(t.symtab, name, Label, 0) == Some(k);
    assert t.symtab[k].sattr + {Global} == t.symtab[k].sattr;
    assert t.symtab[k].(sattr := t.symtab[k].sattr + {Global}) == t.symtab[k];
    assert t.symtab[k := t.symtab[k]] == t.symtab;
  }

  /** undmac1(): a macro of the name, if there is one, is made undefined
      and can no longer be found as a macro; nothing else changes. */
  function Undmac1(s: St, name: string): (r: St)
    ensures Lookup(r.symtab, name, Macro, 0).None?
    ensures r == s.(symtab := r.symtab) && r.symtab.Keys == s.symtab.Keys
    ensures forall j :: j in s.symtab && j != SymKey(name, Macro, 0) ==> r.symtab[j] == s.symtab[j]
    ensures Lookup(s.symtab, name, Macro, 0).Some? ==>
      r.symtab[SymKey(name, Macro, 0)] == s.symtab[SymKey(name, Macro, 0)].(stype := Undef)
  {
    var k := SymKey(name, Macro, 0);
    if Lookup(s.symtab, name, Macro, 0).Some? then s.(symtab := s.symtab[k := s.symtab[k].(stype := Undef)])
    else s
  }

  method Undmac1Of(g: Ctx, name: string)
    modifies g
    ensures g.Snap() == Undmac1(old(g.Snap()), name)
  {
    var k := SymKey(name, Macro, 0);
    if Lookup(g.symtab, name, Macro, 0).Some? {
      g.symtab := g.symtab[k := g.symtab[k].(stype := Undef)];
    }
  }

  /** The function symlist hands each name to. */
  datatype ListFn = MakeGlobal | UndefineMacro

  function Apply(f: ListFn, s: St, name: string): (r: (Status, St))
    ensures r.1 == s.(symtab := r.1.symtab, diags := r.1.diags)
  {
    match f
    case MakeGlobal => Globl1(s, name)
    case UndefineMacro => (OK, Undmac1(s, name))
  }

  method ApplyOf(g: Ctx, f: ListFn, name: string) returns (st: Status)
    modifies g
    ensures (st, g.Snap()) == Apply(f, old(g.Snap()), name)
  {
    match f {
      case MakeGlobal =>
        st := Globl1Of(g, name);
      case UndefineMacro =>
        Undmac1Of(g, name);
        st := OK;
    }
  }

  /** symlist(): `name [, name]...` up to the end of the line.  A token
      other than a symbol where a name belongs, or other than a comma
      between names, is a syntax error; a name the function refuses ends
      the list quietly. */
  function SymList(s: St, f: ListFn): (r: (Status, St))
    ensures r.1 == s.(tok := r.1.tok, symtab := r.1.symtab, diags := r.1.diags)
    decreases Remaining(s)
  {
    if !Peek(s).Symbol? then (ERROR, Fail(s, SymbolListSyntax))
    else
      var a := Apply(f, s, Peek(s).name);
      if a.0 != OK then (OK, a.1)
      else
        var t := Next(a.1);
        if PeekCode(t) == EOL then (OK, t)
        else if PeekCode(t) != ',' as int then (ERROR, Fail(t, SymbolListSyntax))
        else SymList(Next(t), f)
  }

  method SymListOf(g: Ctx, f: ListFn) returns (st: Status)
    modifies g
    ensures (st, g.Snap()) == SymList(old(g.Snap()), f)
  {
    ghost var goal := SymList(g.Snap(), f);
    while true
      invariant SymList(g.Snap(), f) == goal
      decreases Remaining(g.Snap())
    {
      var t := g.Cur();
      if !t.Symbol? {
        ReportError(g, SymbolListSyntax);
        return ERROR;
      }
      st := ApplyOf(g, f, t.name);
      if st != OK {
        return OK;
      }
      Advance(g);
      var c := CodeOf(g.Cur());
      if c == EOL {
        return OK;
      }
      if c != ',' as int {
        ReportError(g, SymbolListSyntax);
        return ERROR;
      }
      Advance(g);
    }
  }

  /** d_globl and d_undmac: the list's status is dropped. */
  method DGlobl(g: Ctx) returns (st: Status)
    modifies g
    ensures st == OK && g.Snap() == SymList(old(g.Snap()), MakeGlobal).1
  {
    var _ := SymListOf(g, MakeGlobal);
    st := OK;
  }

  method DUndmac(g: Ctx) returns (st: Status)
    modifies g
    ensures st == OK && g.Snap() == SymList(old(g.Snap()), UndefineMacro).1
  {
    var _ := SymListOf(g, UndefineMacro);
    st := OK;
  }

  /** The tokens of a well-formed list: `n0, n1, ..., nk` and the end of
      the line. */
  function ListToks(names: seq<string>): (t: seq<Token>)
    requires |names| > 0
    ensures |t| == 2 * |names| && t[0] == Symbol(names[0]) && t[|t| - 1] == Op(EOL)
    decreases |names|
  {
    if |names| == 1 then [Symbol(names[0]), Op(EOL)]
    else [Symbol(names[0]), Op(',' as int)] + ListToks(names[1..])
  }

  /** .globl never takes GLOBAL away. */
  lemma {:induction false} SymListKeepsGlobal(s: St, k: SymKey)
    requires k in s.symtab && Global in s.symtab[k].sattr
    ensures var r := SymList(s, MakeGlobal).1; k in r.symtab && Global in r.symtab[k].sattr
    decreases Remaining(s)
  {
    if Peek(s).Symbol? {
      var a := Apply(MakeGlobal, s, Peek(s).name);
      if a.0 == OK {
        var t := Next(a.1);
        if PeekCode(t) != EOL && PeekCode(t) == ',' as int {
          SymListKeepsGlobal(Next(t), k);
        }
      }
    }
  }

  /** Whether `n` names a label marked global in `tab`. */
  ghost predicate GlobalIn(tab: SymTab, n: string)
  {
    SymKey(n, Label, 0) in tab && Global in tab[SymKey(n, Label, 0)].sattr
  }

  /** The first name of a longer list is made global, and the list goes on
      after its comma. */
  lemma GloblStep(s: St, names: seq<string>)
    requires |names| > 1 && s.tok <= |s.toks| && s.toks[s.tok..] == ListToks(names)
    requires !IsLocal(names[0])
    ensures var u := Next(Next(Globl1(s, names[0]).1));
      && u.tok <= |u.toks| && u.toks[u.tok..] == ListToks(names[1..])
      && u.diags == s.diags && GlobalIn(u.symtab, names[0])
      && SymList(s, MakeGlobal) == SymList(u, MakeGlobal)
  {
    ListShape(s.toks, s.tok, names);
    var t := Next(Globl1(s, names[0]).1);
    assert t.toks == s.toks && t.tok == s.tok + 1;
    var u := Next(t);
    assert u.toks == s.toks && u.tok == s.tok + 2;
  }

  /** `.globl n0, n1, ..., nk` with no local name makes every listed name a
      global label and reports nothing. */
  lemma {:induction false} GloblList(s: St, names: seq<string>)
    requires |names| > 0 && s.tok <= |s.toks| && s.toks[s.tok..] == ListToks(names)
    requires forall n :: n in names ==> !IsLocal(n)
    ensures var r := SymList(s, MakeGlobal);
      && r.0 == OK && r.1.diags == s.diags
      && forall n :: n in names ==> GlobalIn(r.1.symtab, n)
    decreases |names|
  {
    if |names| == 1 {
      ListShape(s.toks, s.tok, names);
      var t := Next(Globl1(s, names[0]).1);
      assert t.toks == s.toks && t.tok == s.tok + 1;
    } else {
      GloblStep(s, names);
      var u := Next(Next(Globl1(s, names[0]).1));
      GloblList(u, names[1..]);
      SymListKeepsGlobal(u, SymKey(names[0], Label, 0));
      forall n | n in names
        ensures GlobalIn(SymList(s, MakeGlobal).1.symtab, n)
      {
        if n != names[0] {
          assert n in names[1..];
        }
      }
    }
  }

  // ---------------------------------------------------------------------
  // .comm
  // ---------------------------------------------------------------------

  /** The first part of d_comm: the symbol, declared common, or the
      refusal that ends the directive. */
  datatype Head = Refused(t: St) | Declared(t: St, key: SymKey)

  /** `.comm name,` : the name must be a symbol and not local, and must not
      be defined yet; it becomes GLOBAL|COMMON|BSS (created when absent)
      before the comma is checked. */
  function CommHead(s: St): (r: Head)
    ensures !Peek(s).Symbol? ==> r == Refused(Fail(s, MissingSymbol))
    ensures Peek(s).Symbol? && IsLocal(Peek(s).name) ==> r == Refused(Fail(Next(s), LocGlError))
    ensures (Peek(s).Symbol? && !IsLocal(Peek(s).name) && Lookup(s.symtab, Peek(s).name, Label, 0).Some? &&
             Defined in s.symtab[SymKey(Peek(s).name, Label, 0)].sattr) ==>
      r == Refused(Fail(Next(s), CommDefined))
    ensures r.Declared? ==>
      && Peek(s).Symbol? && r.key == SymKey(Peek(s).name, Label, 0) && PeekCode(Next(s)) == ',' as int
      && r.key in r.t.symtab && r.t.symtab[r.key].sattr == {Global, Common, Bss}
      && r.t.symtab[r.key].svalue == (if Lookup(s.symtab, Peek(s).name, Label, 0).Some? then s.symtab[r.key].svalue else 0)
      && r.t == Next(Next(s)).(symtab := r.t.symtab)
      && r.t.symtab.Keys == s.symtab.Keys + {r.key}
  {
    if !Peek(s).Symbol? then Refused(Fail(s, MissingSymbol))
    else
      var name := Peek(s).name;
      var t := Next(s);
      if IsLocal(name) then Refused(Fail(t, LocGlError))
      else
        var k := SymKey(name, Label, 0);
        if Lookup(t.symtab, name, Label, 0).Some? && Defined in t.symtab[k].sattr then Refused(Fail(t, CommDefined))
        else
          var tab := Intern(t.symtab, name, Label, 0).0;
          var t1 := t.(symtab := tab[k := tab[k].(sattr := {Global, Common, Bss})]);
          if PeekCode(t1) != ',' as int then Refused(Fail(Next(t1), MissingComma))
          else Declared(Next(t1), k)
  }

  /** d_comm: after the declaration, the size is an absolute expression
      and becomes the symbol's value; a size abs_expr refuses ends the
      directive without an error status. */
  function Comm(s: St): (r: (Status, St))
    ensures CommHead(s).Refused? ==> r == (ERROR, CommHead(s).t)
    ensures CommHead(s).Declared? ==> r.0 == OK
    ensures CommHead(s).Declared? && AbsExpr(CommHead(s).t).0 == OK ==>
      var k := CommHead(s).key;
      k in r.1.symtab && r.1.symtab[k].svalue == AbsExpr(CommHead(s).t).1
  {
    match CommHead(s)
    case Refused(t) => (ERROR, t)
    case Declared(t, k) =>
      var a := AbsExpr(t);
      if a.0 != OK then (OK, a.2)
      else (OK, AtEol(a.2.(symtab := a.2.symtab[k := a.2.symtab[k].(svalue := a.1)])))
  }

  method CommHeadOf(g: Ctx) returns (r: Head)
    modifies g
    ensures r == CommHead(old(g.Snap())) && r.t == g.Snap()
  {
    var t := g.Cur();
    if !t.Symbol? {
      ReportError(g, MissingSymbol);
      return Refused(g.Snap());
    }
    var name := t.name;
    Advance(g);
    if IsLocal(name) {
      ReportError(g, LocGlError);
      return Refused(g.Snap());
    }
    var k := SymKey(name, Label, 0);
    if Lookup(g.symtab, name, Label, 0).Some? && Defined in g.symtab[k].sattr {
      ReportError(g, CommDefined);
      return Refused(g.Snap());
    }
    var tab := Intern(g.symtab, name, Label, 0).0;
    g.symtab := tab[k := tab[k].(sattr := {Global, Common, Bss})];
    var c := CodeOf(g.Cur());
    Advance(g);
    if c != ',' as int {
      ReportError(g, MissingComma);
      return Refused(g.Snap());
    }
    r := Declared(g.Snap(), k);
  }

  method DComm(g: Ctx) returns (st: Status)
    requires g.Ready()
    modifies g
    ensures (st, g.Snap()) == Comm(old(g.Snap()))
  {
    var h := CommHeadOf(g);
    if h.Refused? {
      return ERROR;
    }
    var ok, size := AbsExprOf(g);
    if ok != OK {
      return OK;
    }
    g.symtab := g.symtab[h.key := g.symtab[h.key].(svalue := size)];
    CheckEol(g);
    st := OK;
  }

  /** `.comm name,size` with a literal size, for a name not yet defined:
      the symbol becomes a global common block of that size and nothing
      is reported. */
  lemma CommLiteral(s: St, name: string, size: Word)
    requires !IsLocal(name)
    requires s.tok + 4 <= |s.toks|
    requires s.toks[s.tok..s.tok + 4] == [Symbol(name), Op(',' as int), Const(size), Op(EOL)]
    requires var k := SymKey(name, Label, 0); k in s.symtab ==> Defined !in s.symtab[k].sattr
    ensures var r := Comm(s); var k := SymKey(name, Label, 0);
      && r.0 == OK && r.1.diags == s.diags && k in r.1.symtab
      && r.1.symtab[k].sattr == {Global, Common, Bss} && r.1.symtab[k].svalue == size
  {
    assert s.toks[s.tok] == Symbol(name) && s.toks[s.tok + 1] == Op(',' as int);
    CommHeadDeclares(s, name);
    var h := CommHead(s);
    var t := h.t;
    assert Peek(t) == Const(size) && Peek(Next(t)) == Op(EOL);
    ClassOfEol();
    LiteralIsAbsolute(t);
    var a := AbsExpr(t);
    assert PeekCode(a.2) == EOL;
  }

  /** A name not yet defined, followed by a comma, is declared common. */
  lemma CommHeadDeclares(s: St, name: string)
    requires !IsLocal(name) && Peek(s) == Symbol(name) && PeekCode(Next(s)) == ',' as int
    requires var k := SymKey(name, Label, 0); k in s.symtab ==> Defined !in s.symtab[k].sattr
    ensures var h := CommHead(s);
      && h.Declared? && h.key == SymKey(name, Label, 0)
      && h.t.tok == Next(Next(s)).tok && h.t.toks == s.toks && h.t.diags == s.diags
  {
  }

  // ---------------------------------------------------------------------
  // .equrundef / .regundef, .ccundef
  // ---------------------------------------------------------------------

  /** One name of .equrundef: a label of the name that is an equated
      register is marked UNDEF_EQUR. */
  function UnequateReg(tab: SymTab, name: string): (r: SymTab)
    ensures r.Keys == tab.Keys
    ensures forall k :: k in tab ==>
      (r[k] == tab[k] || (EquatedReg in tab[k].sattre && r[k] == tab[k].(sattre := tab[k].sattre + {UndefEqur})))
    ensures Lookup(tab, name, Label, 0).Some? && EquatedReg in tab[SymKey(name, Label, 0)].sattre ==>
      UndefEqur in r[SymKey(name, Label, 0)].sattre
  {
    var k := SymKey(name, Label, 0);
    if Lookup(tab, name, Label, 0).Some? && EquatedReg in tab[k].sattre then
      tab[k := tab[k].(sattre := tab[k].sattre + {UndefEqur})]
    else tab
  }

  /** The names of .equrundef up to the end of the line, each optionally
      preceded by a comma; anything but a symbol where a name belongs is a
      syntax error.  Only equated registers change, and only by gaining
      UNDEF_EQUR. */
  function UndefRegs(s: St): (r: (Status, St))
    ensures r.1 == s.(tok := r.1.tok, symtab := r.1.symtab, diags := r.1.diags)
    ensures r.1.symtab.Keys == s.symtab.Keys
    ensures forall k :: k in s.symtab ==>
      (r.1.symtab[k] == s.symtab[k] ||
       (EquatedReg in s.symtab[k].sattre && r.1.symtab[k] == s.symtab[k].(sattre := s.symtab[k].sattre + {UndefEqur})))
    decreases Remaining(s)
  {
    if PeekCode(s) == EOL then (OK, s)
    else
      var t := if PeekCode(s) == ',' as int then Next(s) else s;
      if !Peek(t).Symbol? then (ERROR, Fail(t, SyntaxError))
      else UndefRegs(Next(t.(symtab := UnequateReg(t.symtab, Peek(t).name))))
  }

  /** d_equrundef: only in GPU or DSP mode. */
  function EqurUndef(s: St): (r: (Status, St))
    ensures !InRisc(s) ==> r == (ERROR, Fail(s, EqurundefNotRisc))
    ensures InRisc(s) ==> r == UndefRegs(s)
  {
    if !InRisc(s) then (ERROR, Fail(s, EqurundefNotRisc)) else UndefRegs(s)
  }

  method DEqurundef(g: Ctx) returns (st: Status)
    modifies g
    ensures (st, g.Snap()) == EqurUndef(old(g.Snap()))
  {
    if !g.risc.rgpu && !g.risc.rdsp {
      ReportError(g, EqurundefNotRisc);
      return ERROR;
    }
    ghost var goal := UndefRegs(g.Snap());
    while CodeOf(g.Cur()) != EOL
      invariant UndefRegs(g.Snap()) == goal
      decreases Remaining(g.Snap())
    {
      if CodeOf(g.Cur()) == ',' as int {
        Advance(g);
      }
      var t := g.Cur();
      if !t.Symbol? {
        ReportError(g, SyntaxError);
        return ERROR;
      }
      g.symtab := UnequateReg(g.symtab, t.name);
      Advance(g);
    }
    st := OK;
  }

  /** A name at the cursor is unequated and the list goes on after it. */
  lemma UndefRegsName(s: St, name: string)
    requires Peek(s) == Symbol(name)
    ensures UndefRegs(s) == UndefRegs(Next(s.(symtab := UnequateReg(s.symtab, name))))
  {
  }

  /** A comma before a name is skipped. */
  lemma UndefRegsComma(s: St)
    requires PeekCode(s) == ',' as int && Peek(Next(s)).Symbol?
    ensures UndefRegs(s) == UndefRegs(Next(s))
  {
  }

  /** Whether `n`, if it names an equated register in `tab`, carries
      UNDEF_EQUR in `r`. */
  ghost predicate MarkedIn(tab: SymTab, r: SymTab, n: string)
  {
    Lookup(tab, n, Label, 0).Some? && EquatedReg in tab[SymKey(n, Label, 0)].sattre ==>
      SymKey(n, Label, 0) in r && UndefEqur in r[SymKey(n, Label, 0)].sattre
  }

  /** The token facts of a well-formed list: the first name at the cursor,
      then either the end of the line or a comma before the rest. */
  lemma ListShape(toks: seq<Token>, i: nat, names: seq<string>)
    requires |names| > 0 && i <= |toks| && toks[i..] == ListToks(names)
    ensures i + 1 < |toks| && toks[i] == Symbol(names[0])
    ensures |names| == 1 ==> toks[i + 1] == Op(EOL)
    ensures |names| > 1 ==> toks[i + 1] == Op(',' as int) && toks[i + 2..] == ListToks(names[1..])
  {
    var L := ListToks(names);
    assert toks[i] == L[0];
    assert toks[i + 1] == L[1];
    if |names| > 1 {
      assert L == [Symbol(names[0]), Op(',' as int)] + ListToks(names[1..]);
      assert toks[i + 2..] == L[2..];
    }
  }

  /** Once marked, an entry stays marked through the rest of the list. */
  lemma MarkedCarries(s: St, t: St, n: string)
    requires s.symtab.Keys == t.symtab.Keys
    requires forall k :: k in s.symtab ==>
      (t.symtab[k] == s.symtab[k] ||
       (EquatedReg in s.symtab[k].sattre && t.symtab[k] == s.symtab[k].(sattre := s.symtab[k].sattre + {UndefEqur})))
    requires MarkedIn(t.symtab, UndefRegs(t).1.symtab, n)
    ensures MarkedIn(s.symtab, UndefRegs(t).1.symtab, n)
  {
    var k := SymKey(n, Label, 0);
    if Lookup(s.symtab, n, Label, 0).Some? && EquatedReg in s.symtab[k].sattre {
      assert t.symtab[k].stype == Label && EquatedReg in t.symtab[k].sattre;
    }
  }

  /** A mark made before the rest of the list is kept by it. */
  lemma MarkKept(t: St, k: SymKey)
    requires k in t.symtab && UndefEqur in t.symtab[k].sattre
    ensures k in UndefRegs(t).1.symtab && UndefEqur in UndefRegs(t).1.symtab[k].sattre
  {
  }

  /** `.equrundef r0, r1, ...` in GPU or DSP mode marks every listed
      equated register undefined and reports nothing. */
  lemma {:induction false} EqurUndefList(s: St, names: seq<string>)
    requires |names| > 0 && s.tok <= |s.toks| && s.toks[s.tok..] == ListToks(names)
    ensures var r := UndefRegs(s);
      && r.0 == OK && r.1.diags == s.diags
      && forall n :: n in names ==> MarkedIn(s.symtab, r.1.symtab, n)
    decreases |names|
  {
    var tab := UnequateReg(s.symtab, names[0]);
    ListShape(s.toks, s.tok, names);
    UndefRegsName(s, names[0]);
    var t := Next(s.(symtab := tab));
    assert t.toks == s.toks && t.tok == s.tok + 1;
    var k0 := SymKey(names[0], Label, 0);
    if |names| > 1 {
      var u := Next(t);
      UndefRegsComma(t);
      EqurUndefList(u, names[1..]);
      if k0 in tab && UndefEqur in tab[k0].sattre {
        MarkKept(u, k0);
      }
      forall n | n in names
        ensures MarkedIn(s.symtab, UndefRegs(s).1.symtab, n)
      {
        if n != names[0] {
          assert n in names[1..];
          MarkedCarries(s, u, n);
        }
      }
    }
  }

  /** d_ccundef: in GPU or DSP mode, the symbol at the cursor must be a
      label that is an equated condition code; it is marked UNDEF_CC.  The
      cursor does not move. */
  function CcUndef(s: St): (r: (Status, St))
    ensures r.0 == OK <==>
      (InRisc(s) && Peek(s).Symbol? && Lookup(s.symtab, Peek(s).name, Label, 0).Some? &&
       EquatedCC in s.symtab[SymKey(Peek(s).name, Label, 0)].sattre)
    ensures r.0 == OK ==> var k := SymKey(Peek(s).name, Label, 0);
      r.1 == s.(symtab := s.symtab[k := s.symtab[k].(sattre := s.symtab[k].sattre + {UndefCC})])
    ensures !InRisc(s) ==> r.1 == Fail(s, CcundefNotRisc)
    ensures InRisc(s) && !Peek(s).Symbol? ==> r.1 == Fail(s, SyntaxError)
    ensures InRisc(s) && Peek(s).Symbol? && r.0 == ERROR ==> r.1 == Fail(s, InvalidCcName)
  {
    if !InRisc(s) then (ERROR, Fail(s, CcundefNotRisc))
    else if !Peek(s).Symbol? then (ERROR, Fail(s, SyntaxError))
    else
      var k := SymKey(Peek(s).name, Label, 0);
      if Lookup(s.symtab, Peek(s).name, Label, 0).None? || EquatedCC !in s.symtab[k].sattre then
        (ERROR, Fail(s, InvalidCcName))
      else (OK, s.(symtab := s.symtab[k := s.symtab[k].(sattre := s.symtab[k].sattre + {UndefCC})]))
  }

  method DCcundef(g: Ctx) returns (st: Status)
    modifies g
    ensures (st, g.Snap()) == CcUndef(old(g.Snap()))
  {
    if !g.risc.rgpu && !g.risc.rdsp {
      ReportError(g, CcundefNotRisc);
      return ERROR;
    }
    var t := g.Cur();
    if !t.Symbol? {
      ReportError(g, SyntaxError);
      return ERROR;
    }
    var k := SymKey(t.name, Label, 0);
    if Lookup(g.symtab, t.name, Label, 0).None? || EquatedCC !in g.symtab[k].sattre {
      ReportError(g, InvalidCcName);
      return ERROR;
    }
    g.symtab := g.symtab[k := g.symtab[k].(sattre := g.symtab[k].sattre + {UndefCC})];
    st := OK;
  }

  // ---------------------------------------------------------------------
  // .assert
  // ---------------------------------------------------------------------

  /** The log ends with one of .assert's own two reports. */
  predicate AssertReport(d: seq<Diag>)
  {
    |d| > 0 && (d[|d| - 1] == Error(AssertUndefined) || d[|d| - 1] == Error(AssertFailure))
  }

  /** Where one expression of .assert leaves the directive: ended, with
      its status, or going on after a comma. */
  datatype Check = Done(st: Status, t: St) | More(t: St)

  /** One expression of .assert: it must be defined and not zero.  The
      list ends, and the end of the line is checked, at a failed
      expression or at a token other than a comma. */
  function AssertStep(s: St): (r: Check)
    ensures r.More? ==> Remaining(r.t) < Remaining(s)
    ensures r.Done? && r.st == ERROR ==> AssertReport(r.t.diags)
  {
    var e := ExprSpec(s, None);
    if e.0 != OK then Done(OK, AtEol(e.2))
    else if Defined !in e.1.attr then Done(ERROR, Fail(e.2, AssertUndefined))
    else if e.1.value == 0 then Done(ERROR, Fail(e.2, AssertFailure))
    else if PeekCode(e.2) != ',' as int then Done(OK, AtEol(e.2))
    else More(Next(e.2))
  }

  /** d_assert: the expressions, separated by commas. */
  function AssertList(s: St): (r: (Status, St))
    decreases Remaining(s)
  {
    match AssertStep(s)
    case Done(st, t) => (st, t)
    case More(t) => AssertList(t)
  }

  /** .assert fails only through its own two checks: an error status
      always comes with an undefined-value or assertion-failure report. */
  lemma {:induction false} AssertRefusal(s: St)
    ensures AssertList(s).0 == ERROR ==> AssertReport(AssertList(s).1.diags)
    decreases Remaining(s)
  {
    match AssertStep(s)
    case Done(_, _) =>
    case More(t) => AssertRefusal(t);
  }

  method AssertStepOf(g: Ctx) returns (r: Check)
    requires g.Ready()
    modifies g
    ensures r == AssertStep(old(g.Snap())) && r.t == g.Snap()
  {
    var ok, out := Expr(g, None);
    if ok != OK {
      CheckEol(g);
      return Done(OK, g.Snap());
    }
    if Defined !in out.attr {
      ReportError(g, AssertUndefined);
      return Done(ERROR, g.Snap());
    }
    if out.value == 0 {
      ReportError(g, AssertFailure);
      return Done(ERROR, g.Snap());
    }
    if CodeOf(g.Cur()) != ',' as int {
      CheckEol(g);
      return Done(OK, g.Snap());
    }
    Advance(g);
    r := More(g.Snap());
  }

  method DAssert(g: Ctx) returns (st: Status)
    requires g.Ready()
    modifies g
    ensures (st, g.Snap()) == AssertList(old(g.Snap()))
  {
    ghost var goal := AssertList(g.Snap());
    while true
      invariant g.Ready()
      invariant AssertList(g.Snap()) == goal
      decreases Remaining(g.Snap())
    {
      var r := AssertStepOf(g);
      if r.Done? {
        return r.st;
      }
    }
  }

  /** `.assert n` alone on the line fails exactly when n is zero. */
  lemma AssertLiteral(s: St)
    requires Peek(s).Const? && PeekCode(Next(s)) == EOL
    ensures AssertList(s).0 == ERROR <==> Peek(s).v == 0
    ensures Peek(s).v != 0 ==> AssertList(s).1.diags == s.diags
  {
    ClassOfEol();
    LiteralIsAbsolute(s);
    var e := ExprSpec(s, None);
    assert e.0 == OK && Defined in e.1.attr && e.1.value == Peek(s).v && e.2 == AbsExpr(s).2;
    assert PeekCode(e.2) == EOL;
    assert AssertStep(s).Done?;
  }
}
