/**
 * The operator rules of the postfix evaluator: for each operator, the
 * result it leaves on the stack or the diagnostic that stops the
 * evaluation.  A stack slot is a 64-bit value with its attribute word; the
 * rules are a table of checks on the section bits (TDB) and the FLOAT bit.
 * Floating-point results come from the host's double arithmetic, which is
 * a parameter here.
 */
module Operators {
  import opened Machine
  import opened Attrs
  import opened Tokens
  import opened State

  /** One slot of the evaluator's two parallel stacks. */
  datatype Entry = Entry(v: Word, a: Attr)

  /** What an operator leaves: its result, or the diagnostic that stops
      the evaluation. */
  datatype Applied = Push(e: Entry) | Stop(d: Diag)

  predicate IsFloat(a: Attr) { Float in a }

  predicate AnyFloat(x: Entry, y: Entry) { IsFloat(x.a) || IsFloat(y.a) }

  /** A double operation on the two slots. */
  function Fpu(fpu: FloatOps, op: Code, x: Entry, y: Entry): Word
  {
    fpu(op, x.v, y.v, IsFloat(x.a), IsFloat(y.a))
  }

  /** The attribute word the arithmetic rules start from (attr2): the left
      operand's, plus FLOAT when the right operand is a double. */
  function Attr2(x: Entry, y: Entry): Attr { x.a + y.a * {Float} }

  /** A divisor of zero: a double is zero when its bits are +0.0 or -0.0. */
  predicate ZeroDivisor(y: Entry)
  {
    if IsFloat(y.a) then y.v == 0 || y.v == 0x8000_0000_0000_0000 else y.v == 0
  }

  // ---------------------------------------------------------------------
  // + and -
  // ---------------------------------------------------------------------

  /** `+`: an absolute left operand takes on the right one's attributes; a
      relocatable one stays where it is when the right one is absolute;
      two relocatable operands are a segment error. */
  function Plus(x: Entry, y: Entry, fpu: FloatOps): (r: Applied)
    ensures r.Stop? <==> Tdb(x.a) != {} && Tdb(y.a) != {}
    ensures r.Stop? ==> r.d == Error(SegError)
    ensures r.Push? ==> Tdb(r.e.a) == Tdb(x.a) + Tdb(y.a)
    ensures r.Push? && Tdb(x.a) != {} ==> r.e.a == x.a
    ensures r.Push? && Tdb(x.a) == {} ==> r.e.a == x.a + y.a
    ensures r.Push? && !AnyFloat(x, y) ==> r.e.v == (x.v + y.v) % TWO64
  {
    var v := if AnyFloat(x, y) then Fpu(fpu, '+' as int, x, y) else Add(x.v, y.v);
    if Tdb(x.a) == {} then Push(Entry(v, y.a + Attr2(x, y)))
    else if Tdb(y.a) != {} then Stop(Error(SegError))
    else Push(Entry(v, x.a))
  }

  /** `-`: never an error.  An absolute left operand takes on the right
      one's attributes, the difference of two relocatable values is
      absolute (whatever their sections), and relocatable minus absolute
      stays in its section. */
  function Minus(x: Entry, y: Entry, fpu: FloatOps): (r: Applied)
    ensures r.Push?
    ensures Tdb(r.e.a) == if Tdb(x.a) != {} && Tdb(y.a) != {} then {} else Tdb(x.a) + Tdb(y.a)
    ensures Tdb(x.a) == {} ==> r.e.a == y.a
    ensures !AnyFloat(x, y) ==> (r.e.v + y.v) % TWO64 == x.v
  {
    var v := if AnyFloat(x, y) then Fpu(fpu, '-' as int, x, y) else Sub(x.v, y.v);
    var a := Attr2(x, y);
    if Tdb(x.a) == {} then Push(Entry(v, y.a))
    else if Tdb(y.a) != {} then Push(Entry(v, a - TDB))
    else Push(Entry(v, a))
  }

  // ---------------------------------------------------------------------
  // Comparisons
  // ---------------------------------------------------------------------

  /** The ordering comparisons. */
  predicate IsOrdering(op: Code) { op == LE || op == GE || op == '<' as int || op == '>' as int }

  /** The relation an ordering comparison tests, on unsigned values. */
  predicate Holds(op: Code, a: Word, b: Word)
  {
    if op == LE then a <= b
    else if op == GE then a >= b
    else if op == '<' as int then a < b
    else a > b
  }

  /** `<=`, `>=`, `<`, `>`: both operands in the same section; the result
      is the truth value, absolute and defined. */
  function Compare(op: Code, x: Entry, y: Entry, fpu: FloatOps): (r: Applied)
    requires IsOrdering(op)
    ensures r.Stop? <==> Tdb(x.a) != Tdb(y.a)
    ensures r.Stop? ==> r.d == Error(SegError)
    ensures r.Push? ==> r.e.a == {Defined}
    ensures r.Push? && !AnyFloat(x, y) ==> r.e.v <= 1 && (r.e.v == 1 <==> Holds(op, x.v, y.v))
  {
    if Tdb(x.a) != Tdb(y.a) then Stop(Error(SegError))
    else if AnyFloat(x, y) then Push(Entry(Fpu(fpu, op, x, y), {Defined}))
    else Push(Entry(if Holds(op, x.v, y.v) then 1 else 0, {Defined}))
  }

  /** `>=` as the evaluator has it: the value is that of Compare, but the
      result keeps the left operand's attribute word, because the branch
      that would reset it can only be reached in cases handled before it. */
  function CompareGeAsWritten(x: Entry, y: Entry, fpu: FloatOps): (r: Applied)
    ensures r.Stop? <==> Tdb(x.a) != Tdb(y.a)
    ensures r.Push? ==> r.e.a == x.a
    ensures r.Push? && !AnyFloat(x, y) ==> r.e.v <= 1 && (r.e.v == 1 <==> x.v >= y.v)
  {
    if Tdb(x.a) != Tdb(y.a) then Stop(Error(SegError))
    else if AnyFloat(x, y) then Push(Entry(Fpu(fpu, GE, x, y), x.a))
    else Push(Entry(if x.v >= y.v then 1 else 0, x.a))
  }

  /** `<>`: same section, and no doubles at all. */
  function NotEqual(x: Entry, y: Entry): (r: Applied)
    ensures r.Stop? <==> Tdb(x.a) != Tdb(y.a) || AnyFloat(x, y)
    ensures r.Stop? ==> r.d == Error(if Tdb(x.a) != Tdb(y.a) then SegError else FloatCompare)
    ensures r.Push? ==> r.e.a == {Defined} && r.e.v <= 1 && (r.e.v == 1 <==> x.v != y.v)
  {
    if Tdb(x.a) != Tdb(y.a) then Stop(Error(SegError))
    else if AnyFloat(x, y) then Stop(Error(FloatCompare))
    else Push(Entry(if x.v != y.v then 1 else 0, {Defined}))
  }

  /** `=`: same section; a double compared with an integer on its right
      is refused, the other mixes go to the host's doubles. */
  function Equal(x: Entry, y: Entry, fpu: FloatOps): (r: Applied)
    ensures r.Stop? <==> Tdb(x.a) != Tdb(y.a) || (IsFloat(x.a) && !IsFloat(y.a))
    ensures r.Stop? ==> r.d == Error(if Tdb(x.a) != Tdb(y.a) then SegError else FloatEquality)
    ensures r.Push? ==> r.e.a == {Defined}
    ensures r.Push? && !AnyFloat(x, y) ==> r.e.v <= 1 && (r.e.v == 1 <==> x.v == y.v)
  {
    if Tdb(x.a) != Tdb(y.a) then Stop(Error(SegError))
    else if IsFloat(x.a) && !IsFloat(y.a) then Stop(Error(FloatEquality))
    else if AnyFloat(x, y) then Push(Entry(Fpu(fpu, '=' as int, x, y), {Defined}))
    else Push(Entry(if x.v == y.v then 1 else 0, {Defined}))
  }

  // ---------------------------------------------------------------------
  // * / %
  // ---------------------------------------------------------------------

  /** `*`: wrapping product; the result is defined and keeps the left
      operand's section bits. */
  function Times(x: Entry, y: Entry, fpu: FloatOps): (r: Applied)
    ensures r.Push?
    ensures Defined in r.e.a && Tdb(r.e.a) == Tdb(x.a)
    ensures IsFloat(r.e.a) <==> AnyFloat(x, y)
    ensures !AnyFloat(x, y) ==> r.e.v == (x.v * y.v) % TWO64
  {
    var v := if AnyFloat(x, y) then Fpu(fpu, '*' as int, x, y) else Mul(x.v, y.v);
    Push(Entry(v, {Defined} + Attr2(x, y)))
  }

  /** The one quotient of two int32_t values that does not fit: -2^31 / -1. */
  predicate DivOverflows(x: Entry, y: Entry)
  {
    Signed32(x.v) == -0x8000_0000 && Signed32(y.v) == -1
  }

  /** `/`: a zero divisor is an error; integers are divided as int32_t,
      truncating toward zero, and the quotient is sign-extended.  The
      zero test is made on the 32 bits that are divided (the evaluator
      tests all 64: see DivideAsWritten). */
  function Divide(x: Entry, y: Entry, fpu: FloatOps): (r: Applied)
    ensures AnyFloat(x, y) ==> (r.Stop? <==> ZeroDivisor(y))
    ensures !AnyFloat(x, y) ==> (r.Stop? <==> Signed32(y.v) == 0 || DivOverflows(x, y))
    ensures !AnyFloat(x, y) && Signed32(y.v) == 0 ==> r == Stop(Error(DivideByZero))
    ensures r.Push? ==> Defined in r.e.a && Tdb(r.e.a) == Tdb(x.a)
    ensures r.Push? && !AnyFloat(x, y) ==>
      Signed32(r.e.v) == CDiv(Signed32(x.v), Signed32(y.v)) &&
      r.e.v == SignExtend(Signed32(r.e.v))
  {
    var a := {Defined} + Attr2(x, y);
    if AnyFloat(x, y) then
      if ZeroDivisor(y) then Stop(Error(DivideByZero)) else Push(Entry(Fpu(fpu, '/' as int, x, y), a))
    else if Signed32(y.v) == 0 then Stop(Error(DivideByZero))
    else if DivOverflows(x, y) then Stop(Undefined(DivOverflow))
    else
      QuotientFits(Signed32(x.v), Signed32(y.v));
      Div32Properties(x.v, y.v);
      Push(Entry(Div32(x.v, y.v), a))
  }

  /** `/` as the evaluator has it: the zero test reads the whole 64-bit
      divisor, but the division is made on its low 32 bits, so a divisor
      such as 2^32 passes the test and divides by zero. */
  function DivideAsWritten(x: Entry, y: Entry, fpu: FloatOps): (r: Applied)
    ensures !AnyFloat(x, y) && y.v != 0 && Signed32(y.v) == 0 ==> r == Stop(Undefined(DivideByZero))
    ensures !AnyFloat(x, y) ==> (r == Stop(Error(DivideByZero)) <==> y.v == 0)
    ensures AnyFloat(x, y) || y.v == 0 || Signed32(y.v) != 0 ==> r == Divide(x, y, fpu)
  {
    if !AnyFloat(x, y) && y.v != 0 && Signed32(y.v) == 0 then Stop(Undefined(DivideByZero))
    else if !AnyFloat(x, y) && y.v == 0 then Stop(Error(DivideByZero))
    else Divide(x, y, fpu)
  }

  /** `%`: unsigned remainder; doubles and a zero divisor are refused. */
  function Modulo(x: Entry, y: Entry): (r: Applied)
    ensures r.Stop? <==> AnyFloat(x, y) || y.v == 0
    ensures r.Stop? ==> r.d == Error(if AnyFloat(x, y) then FloatNotAllowed('%' as int) else ModByZero)
    ensures r.Push? ==> r.e.a == {Defined} && r.e.v < y.v
    ensures r.Push? ==> x.v == (x.v / y.v) * y.v + r.e.v
    ensures r.Push? && x.v < y.v ==> r.e.v == x.v
  {
    if AnyFloat(x, y) then Stop(Error(FloatNotAllowed('%' as int)))
    else if y.v == 0 then Stop(Error(ModByZero))
    else
      Remainder(x.v, y.v);
      Push(Entry(x.v % y.v, {Defined}))
  }

  // ---------------------------------------------------------------------
  // Shifts and bitwise operators
  // ---------------------------------------------------------------------

  predicate IsShift(op: Code) { op == SHL || op == SHR }

  predicate IsBitwise(op: Code) { op == '&' as int || op == '^' as int || op == '|' as int }

  /** `<<`, `>>`: no doubles; C leaves a count of 64 or more undefined. */
  function Shift(op: Code, x: Entry, y: Entry): (r: Applied)
    requires IsShift(op)
    ensures r.Stop? <==> AnyFloat(x, y) || y.v >= 64
    ensures AnyFloat(x, y) ==> r == Stop(Error(FloatNotAllowed(op)))
    ensures r.Push? ==> r.e.a == {Defined}
  {
    if AnyFloat(x, y) then Stop(Error(FloatNotAllowed(op)))
    else if y.v >= 64 then Stop(Undefined(ShiftTooWide))
    else if op == SHL then Push(Entry(Shl(x.v, y.v), {Defined}))
    else Push(Entry(Shr(x.v, y.v), {Defined}))
  }

  /** `&`, `^`, `|`: no doubles; the result is absolute and defined. */
  function Bitwise(op: Code, x: Entry, y: Entry): (r: Applied)
    requires IsBitwise(op)
    ensures r.Stop? <==> AnyFloat(x, y)
    ensures r.Stop? ==> r.d == Error(FloatNotAllowed(op))
    ensures r.Push? ==> r.e.a == {Defined}
  {
    if AnyFloat(x, y) then Stop(Error(FloatNotAllowed(op)))
    else if op == '&' as int then Push(Entry(BitAnd(x.v, y.v), {Defined}))
    else if op == '^' as int then Push(Entry(BitXor(x.v, y.v), {Defined}))
    else Push(Entry(BitOr(x.v, y.v), {Defined}))
  }

  // ---------------------------------------------------------------------
  // Unary operators
  // ---------------------------------------------------------------------

  predicate IsUnary(op: Code) { op == UNMINUS || op == '!' as int || op == '~' as int }

  /** Unary `-`, `!`, `~`: a relocatable operand is a segment error; `!`
      and `~` refuse a double; the result is absolute and defined.  Integer
      minus negates the operand read as an int, and C leaves that
      undefined for -2^31. */
  function Unary(op: Code, x: Entry, fpu: FloatOps): (r: Applied)
    requires IsUnary(op)
    ensures r.Stop? <==> Tdb(x.a) != {} || (op != UNMINUS && IsFloat(x.a)) ||
                         (op == UNMINUS && !IsFloat(x.a) && Signed32(x.v) == -0x8000_0000)
    ensures r.Stop? ==> r.d == if Tdb(x.a) != {} then Error(SegError)
                               else if op == UNMINUS then Undefined(NegOverflow)
                               else Error(FloatNotAllowed(op))
    ensures r.Push? ==> r.e.a == if op == UNMINUS && IsFloat(x.a) then {Defined, Float} else {Defined}
    ensures r.Push? && op == UNMINUS && !IsFloat(x.a) ==>
      Signed32(r.e.v) == -Signed32(x.v) && r.e.v == SignExtend(-Signed32(x.v))
    ensures r.Push? && op == '!' as int ==> r.e.v <= 1 && (r.e.v == 1 <==> x.v == 0)
    ensures r.Push? && op == '~' as int ==> r.e.v == TWO64 - 1 - x.v
  {
    if Tdb(x.a) != {} then Stop(Error(SegError))
    else if op == UNMINUS then
      if IsFloat(x.a) then Push(Entry(Fpu(fpu, UNMINUS, x, x), {Defined, Float}))
      else if Signed32(x.v) == -0x8000_0000 then Stop(Undefined(NegOverflow))
      else
        Neg32Twice(x.v);
        Push(Entry(Neg32(x.v), {Defined}))
    else if IsFloat(x.a) then Stop(Error(FloatNotAllowed(op)))
    else if op == '!' as int then Push(Entry(if x.v == 0 then 1 else 0, {Defined}))
    else Push(Entry(BitNot(x.v), {Defined}))
  }

  // ---------------------------------------------------------------------
  // The binary operator table
  // ---------------------------------------------------------------------

  predicate IsBinary(op: Code)
  {
    op == '+' as int || op == '-' as int || IsOrdering(op) || op == NE || op == '=' as int ||
    op == '*' as int || op == '/' as int || op == '%' as int || IsShift(op) || IsBitwise(op)
  }

  /** The binary operators; any other code is an internal error. */
  function Binary(op: Code, x: Entry, y: Entry, fpu: FloatOps): (r: Applied)
    ensures !IsBinary(op) ==> r == Stop(Fatal(BadOperator))
    ensures IsBinary(op) && r.Stop? ==> r.d.Error? || r.d in {Undefined(DivOverflow), Undefined(ShiftTooWide)}
  {
    if op == '+' as int then Plus(x, y, fpu)
    else if op == '-' as int then Minus(x, y, fpu)
    else if IsOrdering(op) then Compare(op, x, y, fpu)
    else if op == NE then NotEqual(x, y)
    else if op == '=' as int then Equal(x, y, fpu)
    else if op == '*' as int then Times(x, y, fpu)
    else if op == '/' as int then Divide(x, y, fpu)
    else if op == '%' as int then Modulo(x, y)
    else if IsShift(op) then Shift(op, x, y)
    else if IsBitwise(op) then Bitwise(op, x, y)
    else Stop(Fatal(BadOperator))
  }

  /** The binary operators as the evaluator has them, with the `>=` and
      `/` rules as written. */
  function BinaryAsWritten(op: Code, x: Entry, y: Entry, fpu: FloatOps): (r: Applied)
    ensures op != GE && op != '/' as int ==> r == Binary(op, x, y, fpu)
  {
    if op == GE then CompareGeAsWritten(x, y, fpu)
    else if op == '/' as int then DivideAsWritten(x, y, fpu)
    else Binary(op, x, y, fpu)
  }

  // ---------------------------------------------------------------------
  // Arithmetic facts the division rule relies on
  // ---------------------------------------------------------------------

  /** The quotient of two int32_t values fits in an int32_t unless it is
      -2^31 / -1. */
  lemma {:induction false} QuotientFits(a: int, b: int)
    requires InInt32(a) && InInt32(b) && b != 0
    requires !(a == -0x8000_0000 && b == -1)
    ensures InInt32(CDiv(a, b)) && Wrap32(CDiv(a, b)) == CDiv(a, b)
  {
    var q := Abs(a) / Abs(b);
    QuotientBound(Abs(a), Abs(b));
    if Abs(b) == 1 {
      assert q == Abs(a);
      assert b == 1 || a != -0x8000_0000;
    }
  }

  /** Dividing by m >= 1 does not grow a natural, and dividing by m >= 2
      at least halves it. */
  lemma {:induction false} QuotientBound(n: nat, m: nat)
    requires m >= 1
    ensures n / m <= n
    ensures m >= 2 ==> 2 * (n / m) <= n
  {
    var q := n / m;
    var k := m - 1;
    assert n == q * m + n % m;
    ProductSplit(q, k);
    if m >= 2 {
      ProductSplit(q, k - 1);
    }
  }

  lemma ProductSplit(q: nat, k: nat)
    ensures q * (k + 1) == q + q * k && q * k >= 0
  {
  }
}
