/**
 * What the parser's output is: postfix code that a stack machine can run
 * without ever popping an empty stack, whose symbol references all point
 * into the symbol-pointer table, and in which binary operators, all of
 * one precedence, associate to the left.
 */
module ParserFacts {
  import opened Machine
  import opened Attrs
  import opened Tokens
  import opened Symbols
  import opened TokenClass
  import opened State
  import opened Parser

  // ---------------------------------------------------------------------
  // Stack depth of postfix code
  // ---------------------------------------------------------------------

  /** Operands a cell takes off the evaluation stack.  Every cell then
      leaves one value: an operand pushes it, an operator pushes its
      result, and ENDEXPR reads the value on top and leaves it. */
  function Pops(c: Cell): nat
  {
    match c
    case COp(code) => if code == UNMINUS || code == '!' as int || code == '~' as int then 1 else 2
    case CEnd => 1
    case _ => 0
  }

  /** The stack depth after running the cells from depth d; -1 once a
      cell finds fewer operands than it needs. */
  function Depth(cells: seq<Cell>, d: int): (r: int)
    ensures r >= -1 || r == d
    decreases |cells|
  {
    if |cells| == 0 || d < 0 then d
    else Depth(cells[1..], if d < Pops(cells[0]) then -1 else d - Pops(cells[0]) + 1)
  }

  lemma {:induction false} DepthAppend(a: seq<Cell>, b: seq<Cell>, d: int)
    ensures Depth(a + b, d) == Depth(b, Depth(a, d))
    decreases |a|
  {
    if |a| == 0 {
      assert a + b == b;
    } else if d >= 0 {
      assert (a + b)[1..] == a[1..] + b;
      DepthAppend(a[1..], b, if d < Pops(a[0]) then -1 else d - Pops(a[0]) + 1);
    } else {
      assert Depth(a, d) == d;
    }
  }

  /** Code for an operand: from any depth it leaves at least one more
      value and never runs short. */
  ghost predicate Operand(e: seq<Cell>) { forall d: nat :: Depth(e, d) > d }

  /** Code for the rest of a binary chain: run above its left operand, it
      never runs short and does not lower the depth. */
  ghost predicate Tail(e: seq<Cell>) { forall d: nat :: d >= 1 ==> Depth(e, d) >= d }

  lemma OperandThenTail(e: seq<Cell>, t: seq<Cell>)
    requires Operand(e) && Tail(t)
    ensures Operand(e + t)
  {
    forall d: nat
      ensures Depth(e + t, d) > d
    {
      DepthAppend(e, t, d);
    }
  }

  lemma OperandsThenOp(e1: seq<Cell>, e2: seq<Cell>, op: Cell)
    requires Operand(e1) && Operand(e2) && 1 <= Pops(op) <= 2
    ensures Operand(e1 + e2 + [op])
  {
    forall d: nat
      ensures Depth(e1 + e2 + [op], d) > d
    {
      DepthAppend(e1, e2, d);
      DepthAppend(e1 + e2, [op], d);
    }
  }

  lemma OperandOpTail(e: seq<Cell>, op: Cell, t: seq<Cell>)
    requires Operand(e) && Tail(t) && Pops(op) == 2
    ensures Tail(e + [op] + t)
  {
    forall d: nat | d >= 1
      ensures Depth(e + [op] + t, d) >= d
    {
      DepthAppend(e, [op], d);
      DepthAppend(e + [op], t, d);
    }
  }

  lemma OneOperand(c: Cell)
    requires Pops(c) == 0
    ensures Operand([c])
  {
  }

  // ---------------------------------------------------------------------
  // What a parsing step keeps
  // ---------------------------------------------------------------------

  /** A step only appends to the buffer and to the symbol-pointer table,
      and only adds symbols. */
  predicate Grows(s: St, r: St)
  {
    |s.buf| <= |r.buf| && r.buf[..|s.buf|] == s.buf &&
    |s.symptr| <= |r.symptr| && r.symptr[..|s.symptr|] == s.symptr &&
    s.symtab.Keys <= r.symtab.Keys
  }

  /** Every symbol reference in the buffer points into the symbol-pointer
      table, at a symbol that exists. */
  predicate Resolved(s: St)
  {
    forall i :: 0 <= i < |s.buf| && s.buf[i].CSym? ==>
      s.buf[i].idx < |s.symptr| && s.symptr[s.buf[i].idx] in s.symtab
  }

  /** The cells a step appended. */
  function Out(s: St, r: St): seq<Cell>
    requires |s.buf| <= |r.buf|
  {
    r.buf[|s.buf|..]
  }

  /** What every parsing step guarantees, with `operand` telling whether
      the appended code is an operand (else the tail of a chain). */
  ghost predicate Sound(s: St, r: Parsed, operand: bool)
  {
    Grows(s, r.1) && (Resolved(s) ==> Resolved(r.1)) &&
    (r.0 == OK ==> if operand then Operand(Out(s, r.1)) else Tail(Out(s, r.1)))
  }

  lemma GrowsTrans(a: St, b: St, c: St)
    requires Grows(a, b) && Grows(b, c)
    ensures Grows(a, c)
    ensures Out(a, c) == Out(a, b) + Out(b, c)
  {
    assert c.buf[..|a.buf|] == c.buf[..|b.buf|][..|a.buf|];
    assert c.symptr[..|a.symptr|] == c.symptr[..|b.symptr|][..|a.symptr|];
    assert c.buf[|a.buf|..] == c.buf[|a.buf|..|b.buf|] + c.buf[|b.buf|..];
  }

  /** Appending cells without symbol references keeps the buffer resolved. */
  lemma EmitSound(s: St, cells: seq<Cell>)
    requires forall i :: 0 <= i < |cells| ==> !cells[i].CSym?
    ensures Grows(s, Emit(s, cells)) && Out(s, Emit(s, cells)) == cells
    ensures Resolved(s) ==> Resolved(Emit(s, cells))
  {
    var r := Emit(s, cells);
    assert r.buf[..|s.buf|] == s.buf;
    assert r.symptr[..|s.symptr|] == s.symptr;
    if Resolved(s) {
      forall i | 0 <= i < |r.buf| && r.buf[i].CSym?
        ensures r.buf[i].idx < |r.symptr| && r.symptr[r.buf[i].idx] in r.symtab
      {
        assert i < |s.buf| && r.buf[i] == s.buf[i];
      }
    }
  }

  lemma RefSymSound(s: St, name: string)
    ensures Grows(s, RefSym(s, name)) && Out(s, RefSym(s, name)) == [CSym(|s.symptr|)]
    ensures Resolved(s) ==> Resolved(RefSym(s, name))
  {
    var r := RefSym(s, name);
    assert r.buf[..|s.buf|] == s.buf;
    assert r.symptr[..|s.symptr|] == s.symptr;
    if Resolved(s) {
      forall i | 0 <= i < |r.buf| && r.buf[i].CSym?
        ensures r.buf[i].idx < |r.symptr| && r.symptr[r.buf[i].idx] in r.symtab
      {
        if i < |s.buf| {
          assert r.buf[i] == s.buf[i];
          assert r.symptr[s.buf[i].idx] == s.symptr[s.buf[i].idx];
        }
      }
    }
  }

  /** A step that appends nothing. */
  lemma SameSound(s: St, r: St)
    requires r.buf == s.buf && r.symptr == s.symptr && r.symtab == s.symtab
    ensures Grows(s, r) && Out(s, r) == []
    ensures Resolved(s) ==> Resolved(r)
  {
    assert r.buf[..|s.buf|] == s.buf;
    assert r.symptr[..|s.symptr|] == s.symptr;
  }

  lemma ClassUnary(c: int)
    requires Class(c) == UNARY
    ensures c == UNMINUS || c == '!' as int || c == '~' as int
  {
  }

  lemma ClassBinary(c: int)
    requires Class(c) >= MULT
    ensures c != UNMINUS && c != '!' as int && c != '~' as int
  {
  }

  // ---------------------------------------------------------------------
  // The parser emits sound postfix code
  // ---------------------------------------------------------------------

  /** expr0 only appends; what it appends on success is one operand whose
      symbols are all resolved. */
  lemma {:induction false} Parse0Sound(s: St)
    ensures Sound(s, Parse0(s), true)
    decreases Remaining(s), 3
  {
    var r1 := Parse1(s);
    Parse1Sound(s);
    if r1.0 == OK {
      var r := Parse0Loop(r1.1);
      Parse0LoopSound(r1.1);
      GrowsTrans(s, r1.1, r.1);
      if r.0 == OK {
        OperandThenTail(Out(s, r1.1), Out(r1.1, r.1));
      }
    }
  }

  lemma {:induction false} Parse0LoopSound(s: St)
    ensures Sound(s, Parse0Loop(s), false)
    decreases Remaining(s), 2
  {
    var t := PeekCode(s);
    if Class(t) >= MULT {
      ClassOfEol();
      var s1 := Next(s);
      SameSound(s, s1);
      var r1 := Parse1(s1);
      Parse1Sound(s1);
      GrowsTrans(s, s1, r1.1);
      if r1.0 == OK {
        var s2 := Emit(r1.1, [COp(t)]);
        EmitSound(r1.1, [COp(t)]);
        GrowsTrans(s, r1.1, s2);
        var r := Parse0Loop(s2);
        Parse0LoopSound(s2);
        GrowsTrans(s, s2, r.1);
        if r.0 == OK {
          ClassBinary(t);
          assert Out(s, s2) == Out(s, r1.1) + [COp(t)];
          OperandOpTail(Out(s, r1.1), COp(t), Out(s2, r.1));
        }
      }
    } else {
      SameSound(s, s);
    }
  }

  lemma {:induction false} Parse1Sound(s: St)
    ensures Sound(s, Parse1(s), true)
    decreases Remaining(s), 1
  {
    var t := PeekCode(s);
    if t == '-' as int || t == '+' as int || Class(t) == UNARY {
      UnarySound(s);
    } else if Class(t) == SUNARY {
      SpecialSound(s);
    } else {
      Parse2Sound(s);
    }
  }

  /** The unary branch of expr1: the operand, then the operator. */
  lemma {:induction false} UnarySound(s: St)
    requires PeekCode(s) == '-' as int || PeekCode(s) == '+' as int || Class(PeekCode(s)) == UNARY
    ensures Sound(s, Parse1(s), true)
    decreases Remaining(s), 0, 1
  {
    var t := PeekCode(s);
    ClassOfEol();
    var s1 := Next(s);
    SameSound(s, s1);
    var r2 := Parse2(s1);
    Parse2Sound(s1);
    GrowsTrans(s, s1, r2.1);
    if r2.0 == OK && t != '+' as int {
      var op := COp(if t == '-' as int then UNMINUS else t);
      if t != '-' as int {
        ClassUnary(t);
      }
      EmitSound(r2.1, [op]);
      GrowsTrans(s, r2.1, Emit(r2.1, [op]));
      OperandThenOp(Out(s, r2.1), op);
    }
  }

  lemma OperandThenOp(e: seq<Cell>, op: Cell)
    requires Operand(e) && Pops(op) == 1
    ensures Operand(e + [op])
  {
    forall d: nat
      ensures Depth(e + [op], d) > d
    {
      DepthAppend(e, [op], d);
    }
  }

  lemma SpecialSound(s: St)
    requires Class(PeekCode(s)) == SUNARY
    ensures Sound(s, Special(s), true)
  {
    var r := Special(s);
    if r.0 == OK {
      OneCellSound(s, r.1);
    } else {
      SameSound(s, r.1);
    }
  }

  /** A step that appends one operand cell other than a symbol. */
  lemma OneCellSound(s: St, r: St)
    requires r.symptr == s.symptr && r.symtab == s.symtab
    requires |r.buf| == |s.buf| + 1 && r.buf[..|s.buf|] == s.buf
    requires Pops(r.buf[|s.buf|]) == 0 && !r.buf[|s.buf|].CSym?
    ensures Grows(s, r) && Operand(Out(s, r))
    ensures Resolved(s) ==> Resolved(r)
  {
    assert Out(s, r) == [r.buf[|s.buf|]];
    OneOperand(r.buf[|s.buf|]);
    if Resolved(s) {
      forall i | 0 <= i < |r.buf| && r.buf[i].CSym?
        ensures r.buf[i].idx < |r.symptr| && r.symptr[r.buf[i].idx] in r.symtab
      {
        assert r.buf[i] == r.buf[..|s.buf|][i];
      }
    }
  }

  lemma {:induction false} Parse2Sound(s: St)
    ensures Sound(s, Parse2(s), true)
    decreases Remaining(s), 0
  {
    var t := Peek(s);
    var s1 := Next(s);
    SameSound(s, s1);
    var r := Parse2(s);
    match t
    case Const(v) =>
      EmitSound(s1, [CConst(v)]);
      GrowsTrans(s, s1, r.1);
      OneOperand(CConst(v));
    case FConst(b) =>
      EmitSound(s1, [CFConst(b)]);
      GrowsTrans(s, s1, r.1);
      OneOperand(CFConst(b));
    case Symbol(name) =>
      RefSymSound(s1, name);
      GrowsTrans(s, s1, r.1);
      OneOperand(CSym(|s1.symptr|));
    case Str(text) =>
      EmitSound(s1, [r.1.buf[|s.buf|]]);
      GrowsTrans(s, s1, r.1);
      OneOperand(r.1.buf[|s.buf|]);
    case Op(c) =>
      if c == '(' as int || c == '[' as int || c == '{' as int {
        Parse2GroupSound(s1, c);
        GrowsTrans(s, s1, r.1);
      } else if c == '$' as int || c == '*' as int {
        EmitSound(s1, [r.1.buf[|s.buf|]]);
        GrowsTrans(s, s1, r.1);
        OneOperand(r.1.buf[|s.buf|]);
      } else {
        SameSound(s1, r.1);
        GrowsTrans(s, s1, r.1);
      }
  }

  lemma {:induction false} Parse2GroupSound(s: St, open: Code)
    requires open == '(' as int || open == '[' as int || open == '{' as int
    ensures Sound(s, Parse2Group(s, open), true)
    decreases Remaining(s), 4
  {
    var r0 := Parse0(s);
    Parse0Sound(s);
    if r0.0 == OK {
      var rc := Expect(r0.1, if open == '(' as int then ')' as int else if open == '[' as int then ']' as int else ':' as int,
                       if open == '(' as int then MissingParen else if open == '[' as int then MissingBracket else MissingColon);
      SameSound(r0.1, rc.1);
      GrowsTrans(s, r0.1, rc.1);
      if open == '{' as int && rc.0 == OK {
        var r1 := Parse0(rc.1);
        Parse0Sound(rc.1);
        GrowsTrans(s, rc.1, r1.1);
        if r1.0 == OK {
          var re := Expect(r1.1, '}' as int, MissingBrace);
          SameSound(r1.1, re.1);
          GrowsTrans(s, r1.1, re.1);
          if re.0 == OK {
            forall d: nat
              ensures Depth(Out(s, re.1), d) > d
            {
              DepthAppend(Out(s, rc.1), Out(rc.1, r1.1), d);
            }
          }
        }
      }
    }
  }
}

module ParserExamples {
  import opened Machine
  import opened Tokens
  import opened TokenClass
  import opened State
  import opened Parser

  // ---------------------------------------------------------------------
  // One precedence, left to right
  // ---------------------------------------------------------------------

  /** The tokens `op1 v1 op2 v2 ...` of a chain of binary operations. */
  function Pairs(ops: seq<Code>, vs: seq<Word>): (r: seq<Token>)
    requires |ops| == |vs|
    ensures |r| == 2 * |ops|
  {
    if |ops| == 0 then [] else [Op(ops[0]), Const(vs[0])] + Pairs(ops[1..], vs[1..])
  }

  /** Their postfix form, each operator right after its right operand. */
  function PostPairs(ops: seq<Code>, vs: seq<Word>): seq<Cell>
    requires |ops| == |vs|
  {
    if |ops| == 0 then [] else [CConst(vs[0]), COp(ops[0])] + PostPairs(ops[1..], vs[1..])
  }

  predicate Binary(ops: seq<Code>) { forall i :: 0 <= i < |ops| ==> Class(ops[i]) >= MULT }

  /** A constant is an operand of expr1 by itself. */
  lemma ConstOperand(s: St, v: Word)
    requires Peek(s) == Const(v)
    ensures Parse1(s) == (OK, Emit(Next(s), [CConst(v)]))
  {
  }

  /** One turn of expr0's loop over `op v`. */
  lemma LoopStep(s: St, v: Word)
    requires Class(PeekCode(s)) >= MULT && Peek(Next(s)) == Const(v)
    ensures Parse0Loop(s) == Parse0Loop(Emit(Emit(Next(Next(s)), [CConst(v)]), [COp(PeekCode(s))]))
  {
    ConstOperand(Next(s), v);
  }

  /** The state after expr0's loop has taken `op v` from the cursor. */
  function AfterPair(s: St, op: Code, v: Word): St
  {
    s.(tok := s.tok + 2, buf := s.buf + [CConst(v)] + [COp(op)])
  }

  lemma PairTokens(s: St, ops: seq<Code>, vs: seq<Word>)
    requires |ops| == |vs| > 0
    requires s.tok <= |s.toks| && s.toks[s.tok..] == Pairs(ops, vs) + [Op(EOL)]
    ensures Peek(s) == Op(ops[0]) && Peek(Next(s)) == Const(vs[0])
    ensures var s3 := AfterPair(s, ops[0], vs[0]);
      s3.tok <= |s3.toks| && s3.toks[s3.tok..] == Pairs(ops[1..], vs[1..]) + [Op(EOL)]
  {
    var ts := s.toks[s.tok..];
    assert ts == [Op(ops[0]), Const(vs[0])] + (Pairs(ops[1..], vs[1..]) + [Op(EOL)]);
    assert Peek(s) == ts[0];
    assert Peek(Next(s)) == ts[1];
    assert ts[2..] == Pairs(ops[1..], vs[1..]) + [Op(EOL)];
  }

  lemma PairLoop(s: St, op: Code, v: Word)
    requires Class(op) >= MULT
    requires Peek(s) == Op(op) && Peek(Next(s)) == Const(v)
    ensures Parse0Loop(s) == Parse0Loop(AfterPair(s, op, v))
  {
    ClassOfEol();
    LoopStep(s, v);
  }

  lemma BinaryRest(ops: seq<Code>)
    requires |ops| > 0 && Binary(ops)
    ensures Class(ops[0]) >= MULT && Binary(ops[1..])
  {
    forall i | 0 <= i < |ops[1..]| ensures Class(ops[1..][i]) >= MULT {
      assert ops[1..][i] == ops[i + 1];
    }
  }

  /** expr0's loop stops at EOL. */
  lemma ChainEnd(s: St)
    requires s.tok <= |s.toks| && s.toks[s.tok..] == [Op(EOL)]
    ensures Parse0Loop(s) == (OK, s) == (OK, ChainEnds(s, [], []))
  {
    assert s.buf + [] == s.buf;
    ClassOfEol();
    assert Peek(s) == s.toks[s.tok..][0];
  }

  /** The loop of expr0 over `op1 v1 op2 v2 ... EOL` emits `v1 op1 v2 op2
      ...`: whatever the operators, each is applied to the result so far,
      so the chain associates to the left and no operator binds tighter. */
  lemma {:induction false} ChainLoop(s: St, ops: seq<Code>, vs: seq<Word>)
    requires |ops| == |vs| && Binary(ops)
    requires s.tok <= |s.toks| && s.toks[s.tok..] == Pairs(ops, vs) + [Op(EOL)]
    ensures Parse0Loop(s) == (OK, ChainEnds(s, ops, vs))
    decreases |ops|
  {
    if |ops| == 0 {
      ChainEnd(s);
    } else {
      var s3 := AfterPair(s, ops[0], vs[0]);
      PairTokens(s, ops, vs);
      BinaryRest(ops);
      PairLoop(s, ops[0], vs[0]);
      ChainLoop(s3, ops[1..], vs[1..]);
      ChainEndsStep(s, ops, vs);
    }
  }

  /** The state expr0's loop leaves after the chain. */
  function ChainEnds(s: St, ops: seq<Code>, vs: seq<Word>): St
    requires |ops| == |vs|
  {
    s.(tok := s.tok + 2 * |ops|, buf := s.buf + PostPairs(ops, vs))
  }

  lemma ChainEndsStep(s: St, ops: seq<Code>, vs: seq<Word>)
    requires |ops| == |vs| > 0
    ensures ChainEnds(AfterPair(s, ops[0], vs[0]), ops[1..], vs[1..]) == ChainEnds(s, ops, vs)
  {
    assert s.buf + [CConst(vs[0])] + [COp(ops[0])] + PostPairs(ops[1..], vs[1..]) == s.buf + PostPairs(ops, vs);
  }

  lemma FirstOperand(s: St, v0: Word, ops: seq<Code>, vs: seq<Word>)
    requires |ops| == |vs|
    requires s.tok <= |s.toks| && s.toks[s.tok..] == [Const(v0)] + Pairs(ops, vs) + [Op(EOL)]
    ensures var s1 := s.(tok := s.tok + 1, buf := s.buf + [CConst(v0)]);
      Parse0(s) == Parse0Loop(s1) && s1.tok <= |s1.toks| && s1.toks[s1.tok..] == Pairs(ops, vs) + [Op(EOL)]
  {
    var ts := s.toks[s.tok..];
    assert Peek(s) == ts[0];
    ConstOperand(s, v0);
    assert ts[1..] == Pairs(ops, vs) + [Op(EOL)];
  }

  /** expr0 over `v0 op1 v1 ... opn vn EOL` succeeds and emits `v0 v1 op1
      v2 op2 ... vn opn`. */
  lemma Chain(s: St, v0: Word, ops: seq<Code>, vs: seq<Word>)
    requires |ops| == |vs| && Binary(ops)
    requires s.tok <= |s.toks| && s.toks[s.tok..] == [Const(v0)] + Pairs(ops, vs) + [Op(EOL)]
    ensures Parse0(s) == (OK, s.(tok := s.tok + 1 + 2 * |ops|, buf := s.buf + [CConst(v0)] + PostPairs(ops, vs)))
  {
    var s1 := s.(tok := s.tok + 1, buf := s.buf + [CConst(v0)]);
    FirstOperand(s, v0, ops, vs);
    ChainLoop(s1, ops, vs);
    assert ChainEnds(s1, ops, vs) ==
      s.(tok := s.tok + 1 + 2 * |ops|, buf := s.buf + [CConst(v0)] + PostPairs(ops, vs));
  }

  /** `2+3*4` becomes `2 3 + 4 *`: there is no precedence of `*` over `+`. */
  lemma NoPrecedence(s: St)
    requires s.tok == 0 && s.toks == [Const(2), Op('+' as int), Const(3), Op('*' as int), Const(4), Op(EOL)]
    ensures Parse0(s).0 == OK
    ensures Parse0(s).1.buf == s.buf + [CConst(2), CConst(3), COp('+' as int), CConst(4), COp('*' as int)]
  {
    var ops: seq<Code> := ['+' as int, '*' as int];
    var vs: seq<Word> := [3, 4];
    assert Pairs(ops, vs) == [Op('+' as int), Const(3), Op('*' as int), Const(4)] by {
      assert Pairs(ops[1..][1..], vs[1..][1..]) == [];
    }
    assert s.toks[s.tok..] == [Const(2)] + Pairs(ops, vs) + [Op(EOL)];
    Chain(s, 2, ops, vs);
    assert PostPairs(ops, vs) == [CConst(3), COp('+' as int), CConst(4), COp('*' as int)] by {
      assert PostPairs(ops[1..][1..], vs[1..][1..]) == [];
    }
  }

  // ---------------------------------------------------------------------
  // Unary operators take an expr2 operand
  // ---------------------------------------------------------------------

  /** A unary operator's operand is parsed by expr2, which has no case for
      an operator: a unary operator right after another one is a bad
      expression (so `--x` and `-!x` are rejected, `-(-x)` is not). */
  lemma UnaryThenUnary(s: St)
    requires PeekCode(s) == '-' as int || PeekCode(s) == '+' as int || Class(PeekCode(s)) == UNARY
    requires Peek(Next(s)).Op?
    requires var c := Peek(Next(s)).code; c == '-' as int || c == '+' as int || Class(c) == UNARY
    ensures Parse1(s) == (ERROR, Fail(Next(Next(s)), BadExpression))
  {
    ClassOfEol();
    var c := Peek(Next(s)).code;
    assert c != '(' as int && c != '[' as int && c != '{' as int && c != '$' as int && c != '*' as int;
  }
}
