/**
 * The postfix evaluator (evexpr): a loop over the expression buffer that
 * pushes operands on a stack of values with their attribute words and
 * applies operators to the top of it.  A reference to an undefined
 * symbol that is not global ends the evaluation at once with 0; one
 * undefined global symbol (an external) is allowed, and makes the result
 * undefined.
 */
module Evaluator {
  import opened Machine
  import opened Attrs
  import opened Tokens
  import opened Symbols
  import opened State
  import opened Operators
  import ParserFacts

  /** The evaluator's state between two cells: the stack (top last), the
      external symbol met so far, and the symbol table, whose entries get
      REFERENCED as they are read. */
  datatype Ev = Ev(stack: seq<Entry>, esym: Option<SymKey>, tab: SymTab)

  /** How an evaluation ends: with the value on top of the stack, early
      with "unknown" (an undefined local symbol), or with a diagnostic. */
  datatype Fin = Value(e: Entry, esym: Option<SymKey>) | Unknown | Failed(d: Diag)

  /** What one cell does: the evaluation goes on, or it ends. */
  datatype StepOut = Go(ev: Ev) | Halt(fin: Fin, tab: SymTab)

  /** What expr() hands back: the value, its attributes and the external
      symbol. */
  datatype Outcome = Outcome(value: Word, attr: Attr, esym: Option<SymKey>)

  /** The external symbol, if any, is an undefined global entry. */
  predicate External(esym: Option<SymKey>, tab: SymTab)
  {
    esym.Some? ==> esym.value in tab && Global in tab[esym.value].sattr && Defined !in tab[esym.value].sattr
  }

  /** A symbol-table update that only sets REFERENCED on an entry. */
  predicate OnlyReferenced(tab: SymTab, tab': SymTab)
  {
    tab'.Keys == tab.Keys &&
    forall k :: k in tab ==> tab'[k].sattr - {Referenced} == tab[k].sattr - {Referenced}
  }

  /** ENDEXPR: the value on top of the stack; an external symbol makes it
      undefined. */
  function Finish(ev: Ev): (r: Fin)
    ensures r.Value? <==> |ev.stack| > 0
    ensures r.Failed? ==> r.d == Undefined(StackUnderflow)
    ensures r.Value? ==> r.e.v == ev.stack[|ev.stack| - 1].v && r.esym == ev.esym
    ensures r.Value? ==> (Defined in r.e.a <==> Defined in ev.stack[|ev.stack| - 1].a && ev.esym.None?)
  {
    if |ev.stack| == 0 then Failed(Undefined(StackUnderflow))
    else
      var top := ev.stack[|ev.stack| - 1];
      Value(Entry(top.v, if ev.esym.Some? then top.a - {Defined} else top.a), ev.esym)
  }

  /** A SYMBOL cell: marks the symbol REFERENCED, then pushes its value (0
      when undefined) with its attributes less GLOBAL.  An undefined
      symbol that is not global ends the evaluation with "unknown"; an
      undefined global becomes the external symbol, and a second one is a
      segment error. */
  function SymbolStep(idx: nat, ev: Ev, symptr: seq<SymKey>): (r: StepOut)
    ensures OnlyReferenced(ev.tab, if r.Go? then r.ev.tab else r.tab)
    ensures (idx >= |symptr| || symptr[idx] !in ev.tab) <==> r == Halt(Failed(Undefined(DanglingSymbol)), ev.tab)
    ensures idx < |symptr| && symptr[idx] in ev.tab ==>
      var sy := ev.tab[symptr[idx]];
      (r.Halt? && r.fin == Unknown <==> Defined !in sy.sattr && Global !in sy.sattr) &&
      (Defined !in sy.sattr && Global in sy.sattr && ev.esym.Some? ==> r.Halt? && r.fin == Failed(Error(SegError))) &&
      (r.Go? ==> r.ev.stack == ev.stack + [Entry(if Defined in sy.sattr then sy.svalue else 0,
                                                  sy.sattr + {Referenced} - {Global})]) &&
      (r.Go? ==> r.ev.esym == if Defined in sy.sattr then ev.esym else Some(symptr[idx]))
    ensures r.Go? && External(ev.esym, ev.tab) ==> External(r.ev.esym, r.ev.tab)
  {
    if idx >= |symptr| || symptr[idx] !in ev.tab then Halt(Failed(Undefined(DanglingSymbol)), ev.tab)
    else
      var k := symptr[idx];
      var sy := ev.tab[k];
      var sa := sy.sattr + {Referenced};
      var tab := ev.tab[k := sy.(sattr := sa)];
      if Defined !in sa && Global !in sa then Halt(Unknown, tab)
      else if Defined !in sa && ev.esym.Some? then Halt(Failed(Error(SegError)), tab)
      else
        var e := Entry(if Defined in sa then sy.svalue else 0, sa - {Global});
        Go(Ev(ev.stack + [e], if Defined in sa then ev.esym else Some(k), tab))
  }

  /** An operator cell: a unary operator replaces the top of the stack, a
      binary one the two top slots, by its result. */
  function OpStep(op: Code, ev: Ev, fpu: FloatOps): (r: StepOut)
    ensures r.Go? ==> r.ev.esym == ev.esym && r.ev.tab == ev.tab
    ensures r.Halt? ==> r.tab == ev.tab && r.fin.Failed? && r.fin.d != Undefined(DanglingSymbol)
    ensures r.Go? ==> |ev.stack| >= ParserFacts.Pops(COp(op)) && |r.ev.stack| == |ev.stack| - ParserFacts.Pops(COp(op)) + 1
    ensures r.Go? ==> r.ev.stack[..|r.ev.stack| - 1] == ev.stack[..|ev.stack| - ParserFacts.Pops(COp(op))]
    ensures r == Halt(Failed(Undefined(StackUnderflow)), ev.tab) <==> (IsUnary(op) || IsBinary(op)) && |ev.stack| < ParserFacts.Pops(COp(op))
  {
    var n := |ev.stack|;
    if IsUnary(op) then
      if n < 1 then Halt(Failed(Undefined(StackUnderflow)), ev.tab)
      else
        match Unary(op, ev.stack[n - 1], fpu)
        case Push(e) => Go(ev.(stack := ev.stack[..n - 1] + [e]))
        case Stop(d) => Halt(Failed(d), ev.tab)
    else if !IsBinary(op) then Halt(Failed(Fatal(BadOperator)), ev.tab)
    else if n < 2 then Halt(Failed(Undefined(StackUnderflow)), ev.tab)
    else
      match Binary(op, ev.stack[n - 2], ev.stack[n - 1], fpu)
      case Push(e) => Go(ev.(stack := ev.stack[..n - 2] + [e]))
      case Stop(d) => Halt(Failed(d), ev.tab)
  }

  /** One cell of the buffer.  A CONST is pushed as absolute and defined,
      an FCONST as an absolute, defined double, an ACONST with its own
      attribute word; a constant leaves every slot below it as it was. */
  function Step(c: Cell, ev: Ev, symptr: seq<SymKey>, fpu: FloatOps): (r: StepOut)
    ensures OnlyReferenced(ev.tab, if r.Go? then r.ev.tab else r.tab)
    ensures r.Go? ==> |r.ev.stack| == |ev.stack| - ParserFacts.Pops(c) + 1
    ensures r.Go? && External(ev.esym, ev.tab) ==> External(r.ev.esym, r.ev.tab)
    ensures r.Go? && ev.esym.Some? ==> r.ev.esym == ev.esym
  {
    match c
    case CConst(v) => Go(ev.(stack := ev.stack + [Entry(v, {Defined})]))
    case CFConst(b) => Go(ev.(stack := ev.stack + [Entry(b, {Defined, Float})]))
    case CAConst(v, a) => Go(ev.(stack := ev.stack + [Entry(v, a)]))
    case CSym(i) => SymbolStep(i, ev, symptr)
    case COp(op) => OpStep(op, ev, fpu)
    case CEnd => Halt(Finish(ev), ev.tab)
  }

  /** A constant cell pushes one entry and leaves every slot below it, the
      external symbol and the symbol table as they were; an FCONST pushes
      an absolute, defined double. */
  lemma ConstantPushes(c: Cell, ev: Ev, symptr: seq<SymKey>, fpu: FloatOps)
    requires c.CConst? || c.CFConst? || c.CAConst?
    ensures var r := Step(c, ev, symptr, fpu);
      && r.Go? && |r.ev.stack| == |ev.stack| + 1 && r.ev.stack[..|ev.stack|] == ev.stack
      && r.ev.tab == ev.tab && r.ev.esym == ev.esym
    ensures c.CFConst? ==> Step(c, ev, symptr, fpu).ev.stack[|ev.stack|] == Entry(c.bits, {Defined, Float})
  {
  }

  /** The evaluation of the buffer from cell k on, up to ENDEXPR (the end
      of the buffer reads as ENDEXPR).  The symbol table only gains
      REFERENCED bits, and a result that has an external symbol is
      undefined and names an undefined global entry. */
  function Run(cells: seq<Cell>, k: nat, ev: Ev, symptr: seq<SymKey>, fpu: FloatOps): (r: (Fin, SymTab))
    ensures OnlyReferenced(ev.tab, r.1)
    ensures r.0.Value? && r.0.esym.Some? ==> Defined !in r.0.e.a
    ensures r.0.Value? && ev.esym.Some? ==> r.0.esym == ev.esym
    ensures External(ev.esym, ev.tab) && r.0.Value? ==> External(r.0.esym, r.1)
    decreases |cells| - k
  {
    if k >= |cells| then (Finish(ev), ev.tab)
    else
      match Step(cells[k], ev, symptr, fpu)
      case Go(ev') =>
        var r := Run(cells, k + 1, ev', symptr, fpu);
        OnlyReferencedTrans(ev.tab, ev'.tab, r.1);
        r
      case Halt(f, t) => (f, t)
  }

  lemma OnlyReferencedTrans(a: SymTab, b: SymTab, c: SymTab)
    requires OnlyReferenced(a, b) && OnlyReferenced(b, c)
    ensures OnlyReferenced(a, c)
  {
  }

  /** How evexpr() ends, given how the evaluation ended: on "unknown"
      the value and attributes are 0 and the caller's external symbol is
      left as it was; on an error a diagnostic is added. */
  function Conclude(s: St, fin: Fin, tab: SymTab, prior: Option<SymKey>): (r: (Status, Outcome, St))
    ensures r.2 == s.(symtab := tab, diags := r.2.diags)
    ensures r.0 == OK <==> r.2.diags == s.diags
    ensures r.0 == ERROR ==> |r.2.diags| == |s.diags| + 1 && r.2.diags[..|s.diags|] == s.diags
    ensures r.0 == ERROR <==> fin.Failed?
    ensures fin.Failed? ==> r.2.diags == s.diags + [fin.d]
  {
    match fin
    case Value(e, esym) => (OK, Outcome(e.v, e.a, esym), s.(symtab := tab))
    case Unknown => (OK, Outcome(0, {}, prior), s.(symtab := tab))
    case Failed(d) => (ERROR, Outcome(0, {}, prior), s.(symtab := tab, diags := s.diags + [d]))
  }

  /** evexpr(): the status, what it hands back, and the new state. */
  function Evaluate(s: St, prior: Option<SymKey>): (r: (Status, Outcome, St))
    ensures r.2 == s.(symtab := r.2.symtab, diags := r.2.diags)
    ensures OnlyReferenced(s.symtab, r.2.symtab)
    ensures r.0 == ERROR ==> |r.2.diags| == |s.diags| + 1 && r.2.diags[..|s.diags|] == s.diags
    ensures r.0 == OK && r.1.esym.Some? && r.1.esym != prior ==> Defined !in r.1.attr
    ensures r.0 == OK && r.1.esym != prior ==> External(r.1.esym, r.2.symtab)
  {
    var r := Run(s.buf, 0, Ev([], None, s.symtab), s.symptr, s.line.fpu);
    Conclude(s, r.0, r.1, prior)
  }

  /** Run takes one step at a time. */
  lemma RunStep(cells: seq<Cell>, k: nat, ev: Ev, symptr: seq<SymKey>, fpu: FloatOps)
    requires k < |cells|
    ensures Run(cells, k, ev, symptr, fpu) ==
      match Step(cells[k], ev, symptr, fpu)
      case Go(ev') => Run(cells, k + 1, ev', symptr, fpu)
      case Halt(f, t) => (f, t)
  {
  }

  /** The table an evaluation starts from is replaced by the one it ends
      with. */
  lemma ConcludeIgnoresTable(s: St, t0: SymTab, fin: Fin, tab: SymTab, prior: Option<SymKey>)
    ensures Conclude(s.(symtab := t0), fin, tab, prior) == Conclude(s, fin, tab, prior)
  {
  }

  /** Ends the evaluation with a diagnostic. */
  method Abort(g: Ctx, d: Diag)
    modifies g
    ensures g.Snap() == old(g.Snap()).(diags := old(g.diags) + [d])
  {
    g.diags := g.diags + [d];
  }

  /** A SYMBOL cell, in place. */
  method SymbolCell(g: Ctx, idx: nat, stack: seq<Entry>, esym: Option<SymKey>, prior: Option<SymKey>)
    returns (halted: bool, st: Status, out: Outcome, stack': seq<Entry>, esym': Option<SymKey>)
    modifies g
    ensures var o := SymbolStep(idx, Ev(stack, esym, old(g.symtab)), old(g.symptr));
      if o.Go? then !halted && Ev(stack', esym', g.symtab) == o.ev && g.Snap() == old(g.Snap()).(symtab := g.symtab)
      else halted && (st, out, g.Snap()) == Conclude(old(g.Snap()), o.fin, o.tab, prior)
  {
    halted, st, out, stack', esym' := true, ERROR, Outcome(0, {}, prior), stack, esym;
    if idx >= |g.symptr| || g.symptr[idx] !in g.symtab {
      Abort(g, Undefined(DanglingSymbol));
      return;
    }
    var key := g.symptr[idx];
    var sy := g.symtab[key];
    var sa := sy.sattr + {Referenced};
    g.symtab := g.symtab[key := sy.(sattr := sa)];
    if Defined !in sa {
      if Global !in sa {
        st := OK;
        return;
      }
      if esym.Some? {
        Abort(g, Error(SegError));
        return;
      }
      esym' := Some(key);
    }
    halted := false;
    stack' := stack + [Entry(if Defined in sa then sy.svalue else 0, sa - {Global})];
  }

  /** An operator cell, in place. */
  method OperatorCell(g: Ctx, op: Code, stack: seq<Entry>, esym: Option<SymKey>, prior: Option<SymKey>)
    returns (halted: bool, st: Status, out: Outcome, stack': seq<Entry>)
    modifies g
    ensures var o := OpStep(op, Ev(stack, esym, old(g.symtab)), old(g.line.fpu));
      if o.Go? then !halted && o.ev.stack == stack' && g.Snap() == old(g.Snap())
      else halted && (st, out, g.Snap()) == Conclude(old(g.Snap()), o.fin, o.tab, prior)
  {
    halted, st, out, stack' := true, ERROR, Outcome(0, {}, prior), stack;
    var n := |stack|;
    var res;
    if IsUnary(op) {
      if n < 1 {
        Abort(g, Undefined(StackUnderflow));
        return;
      }
      res := Unary(op, stack[n - 1], g.line.fpu);
      n := n - 1;
    } else if !IsBinary(op) {
      Abort(g, Fatal(BadOperator));
      return;
    } else {
      if n < 2 {
        Abort(g, Undefined(StackUnderflow));
        return;
      }
      res := Binary(op, stack[n - 2], stack[n - 1], g.line.fpu);
      n := n - 2;
    }
    if res.Stop? {
      Abort(g, res.d);
      return;
    }
    halted := false;
    stack' := stack[..n] + [res.e];
  }

  /** One cell other than ENDEXPR, in place. */
  method ApplyCell(g: Ctx, c: Cell, stack: seq<Entry>, esym: Option<SymKey>, prior: Option<SymKey>)
    returns (halted: bool, st: Status, out: Outcome, stack': seq<Entry>, esym': Option<SymKey>)
    requires !c.CEnd?
    modifies g
    ensures var o := Step(c, Ev(stack, esym, old(g.symtab)), old(g.symptr), old(g.line.fpu));
      if o.Go? then !halted && Ev(stack', esym', g.symtab) == o.ev && g.Snap() == old(g.Snap()).(symtab := g.symtab)
      else halted && (st, out, g.Snap()) == Conclude(old(g.Snap()), o.fin, o.tab, prior)
  {
    halted, st, out, stack', esym' := false, OK, Outcome(0, {}, prior), stack, esym;
    match c
    case CConst(v) =>
      stack' := stack + [Entry(v, {Defined})];
    case CAConst(v, a) =>
      stack' := stack + [Entry(v, a)];
    case CSym(idx) =>
      halted, st, out, stack', esym' := SymbolCell(g, idx, stack, esym, prior);
    case COp(op) =>
      halted, st, out, stack' := OperatorCell(g, op, stack, esym, prior);
    case CFConst(b) =>
      stack' := stack + [Entry(b, {Defined, Float})];
  }

  method EvExpr(g: Ctx, prior: Option<SymKey>) returns (st: Status, out: Outcome)
    modifies g
    ensures (st, out, g.Snap()) == Evaluate(old(g.Snap()), prior)
  {
    var stack: seq<Entry> := [];
    var esym: Option<SymKey> := None;
    var k := 0;
    ghost var goal := Run(g.buf, 0, Ev([], None, g.symtab), g.symptr, g.line.fpu);
    while k < |g.buf| && !g.buf[k].CEnd?
      invariant k <= |g.buf|
      invariant g.Snap() == old(g.Snap()).(symtab := g.symtab)
      invariant Run(g.buf, k, Ev(stack, esym, g.symtab), g.symptr, g.line.fpu) == goal
      decreases |g.buf| - k
    {
      ghost var o := Step(g.buf[k], Ev(stack, esym, g.symtab), g.symptr, g.line.fpu);
      RunStep(g.buf, k, Ev(stack, esym, g.symtab), g.symptr, g.line.fpu);
      ghost var here := g.symtab;
      var halted;
      halted, st, out, stack, esym := ApplyCell(g, g.buf[k], stack, esym, prior);
      if halted {
        ConcludeIgnoresTable(old(g.Snap()), here, o.fin, o.tab, prior);
        return;
      }
      k := k + 1;
    }
    if |stack| == 0 {
      Abort(g, Undefined(StackUnderflow));
      return ERROR, Outcome(0, {}, prior);
    }
    var top := stack[|stack| - 1];
    st, out := OK, Outcome(top.v, if esym.Some? then top.a - {Defined} else top.a, esym);
  }

  // ---------------------------------------------------------------------
  // The two stacks as written
  // ---------------------------------------------------------------------

  /** evexpr's value and attribute stacks as two arrays with their top
      pointers.  A slot absent from a map has not been written during this
      evaluation; both pointers start at slot 0, the unused top of an
      empty stack. */
  datatype Slots = Slots(vals: map<int, Word>, sv: int, attrs: map<int, Attr>, sa: int)

  const NoSlots: Slots := Slots(map[], 0, map[], 0)

  /** CONST: both pointers move up, onto the value and ABS|DEFINED. */
  function ConstAsWritten(s: Slots, v: Word): (r: Slots)
    ensures r.sv == s.sv + 1 && r.sa == s.sa + 1
    ensures r.sv in r.vals && r.vals[r.sv] == v && r.sa in r.attrs && r.attrs[r.sa] == {Defined}
    ensures forall i :: i in s.vals && i <= s.sv ==> i in r.vals && r.vals[i] == s.vals[i]
  {
    Slots(s.vals[s.sv + 1 := v], s.sv + 1, s.attrs[s.sa + 1 := {Defined}], s.sa + 1)
  }

  /** FCONST as written: the double is stored in the top value slot
      without moving its pointer, while its attribute word is pushed, so
      each FCONST puts the attribute pointer one slot further ahead. */
  function FConstAsWritten(s: Slots, b: Word): (r: Slots)
    ensures r.sv == s.sv && r.sa - r.sv == s.sa - s.sv + 1
    ensures r.sv in r.vals && r.vals[r.sv] == b && r.sa in r.attrs && r.attrs[r.sa] == {Defined, Float}
    ensures s.sv in s.vals && s.vals[s.sv] != b ==> r.vals[r.sv] != s.vals[s.sv]
  {
    Slots(s.vals[s.sv := b], s.sv, s.attrs[s.sa + 1 := {Defined, Float}], s.sa + 1)
  }
}
