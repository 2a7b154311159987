/**
 * abs_expr: an expression the directives need as a plain number, defined
 * now and belonging to no section.  Every caller passes no symbol slot, so
 * the symbol expr() would report is dropped.
 */
module AbsExpression {
  import opened Machine
  import opened Attrs
  import opened Tokens
  import opened Symbols
  import opened TokenClass
  import opened State
  import opened Parser
  import opened Evaluator
  import opened ExprEntry
  import opened ExprFacts

  /** abs_expr(): the status, the value expr() stored (meaningful only on
      OK) and the state after it. */
  function AbsExpr(s: St): (r: (Status, Word, St))
    ensures var e := ExprSpec(s, None);
      && r.1 == e.1.value
      && (r.0 == OK <==> e.0 == OK && Defined in e.1.attr && Tdb(e.1.attr) == {})
      && (r.0 == OK || e.0 == ERROR ==> r.2 == e.2)
      && (e.0 == OK && Defined !in e.1.attr ==> r.2 == Fail(e.2, UndefError))
      && (e.0 == OK && Defined in e.1.attr && Tdb(e.1.attr) != {} ==> r.2 == Fail(e.2, RelError))
    ensures Remaining(r.2) <= Remaining(s) && Kept(s, r.2)
  {
    var e := ExprSpec(s, None);
    if e.0 != OK then (ERROR, e.1.value, e.2)
    else if Defined !in e.1.attr then (ERROR, e.1.value, Fail(e.2, UndefError))
    else if Tdb(e.1.attr) != {} then (ERROR, e.1.value, Fail(e.2, RelError))
    else (OK, e.1.value, e.2)
  }

  method AbsExprOf(g: Ctx) returns (st: Status, v: Word)
    requires g.Ready()
    modifies g
    ensures (st, v, g.Snap()) == AbsExpr(old(g.Snap()))
  {
    var out;
    st, out := Expr(g, None);
    v := out.value;
    if st != OK {
      return;
    }
    if Defined !in out.attr {
      ReportError(g, UndefError);
      st := ERROR;
    } else if Tdb(out.attr) != {} {
      ReportError(g, RelError);
      st := ERROR;
    }
  }

  /** A literal number alone on the line (or before a closing token) is
      absolute: abs_expr accepts it and yields its value. */
  lemma LiteralIsAbsolute(s: St)
    requires Peek(s).Const? && Class(PeekCode(Next(s))) < UNARY
    ensures AbsExpr(s).0 == OK && AbsExpr(s).1 == Peek(s).v
    ensures AbsExpr(s).2 == Emit(Next(s.(buf := [])), [CConst(Peek(s).v), CEnd])
  {
    FastConstAgrees(s, None);
    SlowConst(s.(buf := []), None);
  }
}
