/**
 * Inputs on which the code as written and the evidently intended
 * behaviour part ways.  Each lemma names one such input and states what
 * both versions do with it; the rest of the model uses the intended one.
 */
module Findings {
  import opened Machine
  import opened Attrs
  import opened Tokens
  import opened Symbols
  import opened TokenClass
  import opened State
  import opened Parser
  import opened Operators
  import opened Evaluator
  import opened ExprEntry
  import opened ExprFacts

  /** `1/$100000000`: the divisor is tested as a 64-bit value, which is not
      zero, but divided as its low 32 bits, which are. */
  lemma DivideByHighWord(fpu: FloatOps)
    ensures DivideAsWritten(Entry(1, {Defined}), Entry(TWO32, {Defined}), fpu) == Stop(Undefined(DivideByZero))
    ensures Divide(Entry(1, {Defined}), Entry(TWO32, {Defined}), fpu) == Stop(Error(DivideByZero))
  {
  }

  /** `a >= b` on two TEXT labels: the result is a truth value, yet as
      written it keeps the left label's section, so it would be relocated. */
  lemma GreaterEqualKeepsSection(fpu: FloatOps)
    ensures CompareGeAsWritten(Entry(8, {Defined, Text}), Entry(4, {Defined, Text}), fpu) ==
      Push(Entry(1, {Defined, Text}))
    ensures Compare(GE, Entry(8, {Defined, Text}), Entry(4, {Defined, Text}), fpu) ==
      Push(Entry(1, {Defined}))
  {
    assert Tdb({Defined, Text}) == {Text};
  }

  lemma ClassOfDollar() ensures Class('$' as int) == END {}

  /** A lone `$` at the end of a line: the first shape of the fast-path
      test admits it, and the fast path refuses it as an undefined
      register; the general path gives the current location. */
  lemma LoneDollar(s: St, prior: Option<SymKey>)
    requires s.toks == [Op('$' as int), Op(EOL)] && s.tok == 0
    ensures ExprAsWritten(s, prior) ==
      (ERROR, Outcome(0, {}, prior), Fail(Next(s.(buf := [])), UndefRiscRegister))
    ensures ExprSpec(s, prior) ==
      (OK, Outcome(s.sect.sloc % TWO32, HereAttr(s), None),
       Emit(Next(s.(buf := [])), [CAConst(s.sect.sloc % TWO32, HereAttr(s)), CEnd]))
  {
    var s0 := s.(buf := []);
    WordAfter(s0);
    ClassOfDollar();
    assert FastGuardAsWritten(s0) && !FastGuard(s0);
    var c := CAConst(s.sect.sloc % TWO32, HereAttr(s));
    assert Parse2(s0) == (OK, Emit(Next(s0), [c]));
    ClassOfEol();
    SlowOne(s0, prior);
    var e := Emit(Parse2(s0).1, [CEnd]);
    assert e == Emit(Next(s0), [c, CEnd]);
    EvaluatePush(e, c, prior);
  }

  /** `2*1.5` (b the double's bits): as written, the FCONST overwrites the
      2 in its value slot and moves only the attribute pointer, so the
      multiplication reads value slot 0, which this evaluation never
      wrote, beside the 2's attribute word; the corrected step keeps the
      2 under the double. */
  lemma FloatAfterConst(b: Word, tab: SymTab, symptr: seq<SymKey>, fpu: FloatOps)
    ensures var s := FConstAsWritten(ConstAsWritten(NoSlots, 2), b);
      s.sv == 1 && s.sa == 2 && s.vals == map[1 := b] && s.attrs[s.sa - 1] == {Defined}
    ensures var o := Step(CConst(2), Ev([], None, tab), symptr, fpu);
      o.Go? && Step(CFConst(b), o.ev, symptr, fpu) ==
        Go(Ev([Entry(2, {Defined}), Entry(b, {Defined, Float})], None, tab))
  {
  }

  /** `1.5*2`: a double first on the stack is the case the code as written
      gets right, since the value slots then stay one below the attribute
      slots: the operator reads the same two entries as the corrected
      stack holds. */
  lemma FloatFirst(b: Word, v: Word, tab: SymTab, symptr: seq<SymKey>, fpu: FloatOps)
    ensures var s := ConstAsWritten(FConstAsWritten(NoSlots, b), v);
      s.sv - 1 in s.vals && s.sa - 1 in s.attrs &&
      s.vals[s.sv - 1] == b && s.attrs[s.sa - 1] == {Defined, Float} &&
      s.vals[s.sv] == v && s.attrs[s.sa] == {Defined}
    ensures var o := Step(CFConst(b), Ev([], None, tab), symptr, fpu);
      o.Go? && Step(CConst(v), o.ev, symptr, fpu) ==
        Go(Ev([Entry(b, {Defined, Float}), Entry(v, {Defined})], None, tab))
  {
  }
}
