/**
 * Machine-level arithmetic of the assembler: 64-bit unsigned words
 * (C's uint64_t, the type of expression values) with explicit wrap-around,
 * and the 32-bit signed casts the evaluator applies for unary minus and
 * division.
 */
module Machine {

  datatype Option<T> = None | Some(value: T)

  const TWO16: int := 0x1_0000
  const TWO32: int := 0x1_0000_0000
  const TWO64: int := 0x1_0000_0000_0000_0000

  /** An expression value: a uint64_t. */
  type Word = x: int | 0 <= x < TWO64

  predicate InInt32(x: int) { -0x8000_0000 <= x < 0x8000_0000 }

  /** Conversion of a mathematical integer to uint64_t (reduction modulo 2^64). */
  function ToWord(x: int): Word
  {
    x % TWO64
  }

  function Add(a: Word, b: Word): Word { ToWord(a + b) }
  function Sub(a: Word, b: Word): Word { ToWord(a - b) }
  function Mul(a: Word, b: Word): Word { ToWord(a * b) }

  /** The bitwise operators work on the 64-bit pattern of the word. */
  function FromBits(r: bv64): Word { r as int }
  function BitAnd(a: Word, b: Word): Word { FromBits((a as bv64) & (b as bv64)) }
  function BitOr(a: Word, b: Word): Word { FromBits((a as bv64) | (b as bv64)) }
  function BitXor(a: Word, b: Word): Word { FromBits((a as bv64) ^ (b as bv64)) }

  /** `~` complements each of the 64 bits, which subtracts the word from
      the all-ones word 2^64 - 1. */
  function BitNot(a: Word): Word { TWO64 - 1 - a }

  /** Shifts of a uint64_t; C leaves counts of 64 and above undefined. */
  function Shl(a: Word, n: Word): Word
    requires n < 64
  {
    FromBits((a as bv64) << (n as bv7))
  }

  function Shr(a: Word, n: Word): Word
    requires n < 64
  {
    FromBits((a as bv64) >> (n as bv7))
  }

  /** The (uint32_t) cast: the low 32 bits of a word. */
  function Low32(w: Word): nat
  {
    w % TWO32
  }

  /** The (int32_t) cast: the low 32 bits read in two's complement. */
  function Signed32(w: Word): (r: int)
    ensures InInt32(r)
  {
    var u := w % TWO32;
    if u >= 0x8000_0000 then u - TWO32 else u
  }

  /** Two's-complement wrap of a 32-bit int computation. */
  function Wrap32(x: int): (r: int)
    ensures InInt32(r)
  {
    (x + 0x8000_0000) % TWO32 - 0x8000_0000
  }

  /** Conversion of an int32_t to uint64_t: sign extension. */
  function SignExtend(x: int): Word
    requires InInt32(x)
  {
    ToWord(x)
  }

  /** Unary minus of the evaluator: the operand is cast to int, negated
      and stored back into a uint64_t.  C leaves the negation of -2^31, the
      one int whose negation overflows, undefined. */
  function Neg32(w: Word): Word
    requires Signed32(w) != -0x8000_0000
  {
    SignExtend(-Signed32(w))
  }

  function Abs(x: int): nat { if x < 0 then -x else x }

  /** C's integer division, which truncates toward zero. */
  function CDiv(a: int, b: int): int
    requires b != 0
  {
    var q := Abs(a) / Abs(b);
    if (a < 0) == (b < 0) then q else -q
  }

  /** Integer division of the evaluator: both operands are cast to int32_t,
      divided in 32-bit arithmetic, and the quotient is stored back into a
      uint64_t (sign-extended). */
  function Div32(a: Word, b: Word): Word
    requires Signed32(b) != 0
  {
    SignExtend(Wrap32(CDiv(Signed32(a), Signed32(b))))
  }

  /** The half-word swap applied to `dc.i` longs:
      ((w >> 16) & 0xFFFF) | ((w << 16) & 0xFFFF0000). */
  function SwapHalves(w: Word): Word
  {
    (w / TWO16) % TWO16 + (w % TWO16) * TWO16
  }

  // ---------------------------------------------------------------------
  // Properties of the 32-bit paths
  // ---------------------------------------------------------------------

  lemma {:induction false} LowOfWord(x: int)
    ensures ToWord(x) % TWO32 == x % TWO32
  {
    var k := x / TWO64;
    assert x == k * TWO64 + x % TWO64;
    assert k * TWO64 == (k * TWO32) * TWO32;
  }

  /** Reading back a sign-extended 32-bit value gives the value itself. */
  lemma {:induction false} SignExtendRoundTrip(x: int)
    requires InInt32(x)
    ensures Signed32(SignExtend(x)) == x
  {
    LowOfWord(x);
    if x < 0 {
      assert x % TWO32 == x + TWO32;
    }
  }

  /** A sign-extended word is recognised by its upper half: all zeros for a
      non-negative value and all ones for a negative one. */
  lemma {:induction false} SignExtendShape(x: int)
    requires InInt32(x)
    ensures x >= 0 ==> SignExtend(x) == x
    ensures x < 0 ==> SignExtend(x) == TWO64 + x && SignExtend(x) >= TWO64 - 0x8000_0000
  {
  }

  /** Unary minus negates the int read from the operand's low 32 bits,
      and may be applied again: twice, it gives back the sign extension of
      the operand's low half. */
  lemma {:induction false} Neg32Twice(w: Word)
    requires Signed32(w) != -0x8000_0000
    ensures Signed32(Neg32(w)) == -Signed32(w) && Signed32(Neg32(w)) != -0x8000_0000
    ensures Neg32(Neg32(w)) == SignExtend(Signed32(w))
  {
    SignExtendRoundTrip(-Signed32(w));
  }

  /** Unsigned division and remainder: the quotient times the divisor
      plus the remainder gives back the dividend. */
  lemma {:induction false} Remainder(a: nat, b: nat)
    requires b > 0
    ensures a == (a / b) * b + a % b && a % b < b
    ensures a < b ==> a % b == a
  {
  }

  /** C division truncates toward zero: the remainder a - q*b has the sign
      of the dividend and is smaller in magnitude than the divisor. */
  lemma {:induction false} CDivTruncates(a: int, b: int)
    requires b != 0
    ensures Abs(CDiv(a, b)) == Abs(a) / Abs(b)
    ensures Abs(a - CDiv(a, b) * b) < Abs(b)
    ensures a - CDiv(a, b) * b == 0 || (a - CDiv(a, b) * b < 0 <==> a < 0)
  {
    var q := Abs(a) / Abs(b);
    var r := Abs(a) % Abs(b);
    assert Abs(a) == q * Abs(b) + r;
    if a < 0 {
      if b < 0 {
        assert CDiv(a, b) * b == -(q * Abs(b));
      } else {
        assert CDiv(a, b) * b == -(q * Abs(b));
      }
      assert a - CDiv(a, b) * b == -r;
    } else {
      assert CDiv(a, b) * b == q * Abs(b);
      assert a - CDiv(a, b) * b == r;
    }
  }

  /** Division results are always sign-extended 32-bit values, and the
      quotient truncates toward zero (so -7/2 is -3, not -4). */
  lemma {:induction false} Div32Properties(a: Word, b: Word)
    requires Signed32(b) != 0
    ensures SignExtend(Signed32(Div32(a, b))) == Div32(a, b)
    ensures Signed32(Div32(a, b)) == Wrap32(CDiv(Signed32(a), Signed32(b)))
  {
    SignExtendRoundTrip(Wrap32(CDiv(Signed32(a), Signed32(b))));
  }

  lemma Div32Truncates()
    ensures Div32(ToWord(-7), 2) == ToWord(-3)
    ensures Div32(7, ToWord(-2)) == ToWord(-3)
    ensures Div32(ToWord(-0x8000_0000), ToWord(-1)) == ToWord(-0x8000_0000)
  {
  }

  /** The `dc.i` swap is its own inverse on the low 32 bits, and its result
      always fits in 32 bits. */
  lemma {:induction false} SwapHalvesInvolution(w: Word)
    ensures SwapHalves(w) < TWO32
    ensures SwapHalves(SwapHalves(w)) == w % TWO32
  {
    var hi := (w / TWO16) % TWO16;
    var lo := w % TWO16;
    var s := hi + lo * TWO16;
    assert s < TWO32;
    assert s / TWO16 == lo;
    assert s % TWO16 == hi;
    assert SwapHalves(s) == lo + hi * TWO16;
    assert w % TWO32 == lo + hi * TWO16 by {
      var k := w / TWO32;
      assert w == k * TWO32 + w % TWO32;
      var m := w / TWO16;
      assert w == m * TWO16 + lo;
      assert m == k * TWO16 + hi;
    }
  }
}
