/**
 * Initialisation of the expression analyser (the token-class table) and
 * the folding of a string operand into a 32-bit constant.
 */
module ExprInit {
  import opened Machine
  import opened Attrs
  import opened Tokens
  import opened Symbols
  import opened TokenClass
  import opened State

  // ---------------------------------------------------------------------
  // The token-class table
  // ---------------------------------------------------------------------

  /** InitExpression: sets every class to END, then walks itokcl up to the
      terminating 1, moving to the next class at each 0 and giving every
      other code the current class; finally empties the symbol table of
      the evaluator. */
  method InitExpression(g: Ctx)
    requires g.tokenClass.Length == 256
    modifies g, g.tokenClass
    ensures g.tokenClass[..] == StdTable()
    ensures g.Ready()
    ensures g.Snap() == old(g.Snap()).(symptr := [])
  {
    FillClasses(g.tokenClass);
    StdTableClasses(g.tokenClass[..]);
    g.symptr := [];
  }

  /** The two loops of InitExpression, over the table alone. */
  method FillClasses(t: array<int>)
    requires t.Length == 256
    modifies t
    ensures t[..] == StdTable()
  {
    ClearClasses(t);
    ItokClShape();
    assert t[..] == TableAfter(ItokCl, 0);
    assert forall j :: 0 <= j < STOP ==> ItokCl[..STOP][j] == ItokCl[j];
    WalkItokCl(t);
  }

  /** The first loop: every class is END. */
  method ClearClasses(t: array<int>)
    requires t.Length == 256
    modifies t
    ensures forall j :: 0 <= j < 256 ==> t[j] == END
  {
    var c := 0;
    while c < 256
      invariant 0 <= c <= 256
      invariant forall j :: 0 <= j < c ==> t[j] == END
    {
      t[c] := END;
      c := c + 1;
    }
  }

  /** The second loop: the walk over itokcl up to its terminating 1. */
  method WalkItokCl(t: array<int>)
    requires t.Length == 256 && |ItokCl| == STOP + 1 && CodesInRange(ItokCl)
    requires t[..] == TableAfter(ItokCl, 0)
    requires forall j :: 0 <= j < STOP ==> ItokCl[j] != 1
    requires ItokCl[STOP] == 1
    modifies t
    ensures t[..] == TableAfter(ItokCl, STOP)
  {
    var i := 0;
    var p := 0;
    while ItokCl[p] != 1
      invariant 0 <= p <= STOP
      invariant i == Zeros(ItokCl[..p])
      invariant t[..] == TableAfter(ItokCl, p)
      decreases STOP - p
    {
      assert ItokCl[..p + 1][..p] == ItokCl[..p];
      if ItokCl[p] == 0 {
        i := i + 1;
      } else {
        t[ItokCl[p]] := i;
      }
      p := p + 1;
    }
  }

  /** Every entry of the standard table is the class of its code. */
  lemma StdTableClasses(t: seq<int>)
    requires t == StdTable()
    ensures |t| == 256 && forall k :: 0 <= k < 256 ==> t[k] == Class(k)
  {
    forall k | 0 <= k < 256
      ensures t[k] == Class(k)
    {
      StdTableIsClass(k);
    }
  }

  // ---------------------------------------------------------------------
  // str_value
  // ---------------------------------------------------------------------

  /** The byte a character contributes (`*p & 0xFF`). */
  function Ord(c: char): Byte { (c as int) % 256 }

  /** The characters a C string holds: those before its first NUL. */
  function CText(text: string): (t: string)
    ensures t <= text && (|t| == |text| || text[|t|] == '\0')
    ensures forall j :: 0 <= j < |t| ==> t[j] != '\0'
  {
    if |text| == 0 || text[0] == '\0' then "" else [text[0]] + CText(text[1..])
  }

  /** str_value: folds the characters into an unsigned 32-bit value,
      shifting left by 8 before each one (applied to CText of a string). */
  function StrValue(text: string): (v: nat)
    ensures v < TWO32
  {
    if |text| == 0 then 0
    else (StrValue(text[..|text| - 1]) * 256 + Ord(text[|text| - 1])) % TWO32
  }

  /** str_value, as the loop the assembler runs: it stops at the first
      NUL or at the end of the text. */
  method StrValueOf(text: string) returns (v: nat)
    ensures v == StrValue(CText(text))
  {
    v := 0;
    var i := 0;
    while i < |text| && text[i] != '\0'
      invariant 0 <= i <= |text|
      invariant v == StrValue(text[..i])
      invariant forall j :: 0 <= j < i ==> text[j] != '\0'
    {
      assert text[..i + 1][..i] == text[..i];
      v := (v * 256 + Ord(text[i])) % TWO32;
      i := i + 1;
    }
    var t := CText(text);
    assert t == text[..i];
  }

  /** The characters of a string read as one big-endian number, without
      any truncation. */
  function Packed(text: string): nat
  {
    if |text| == 0 then 0 else Packed(text[..|text| - 1]) * 256 + Ord(text[|text| - 1])
  }

  function Pow256(n: nat): (p: nat)
    ensures p >= 1
  {
    if n == 0 then 1 else 256 * Pow256(n - 1)
  }

  lemma {:induction false} StrValueIsPackedMod(text: string)
    ensures StrValue(text) == Packed(text) % TWO32
    decreases |text|
  {
    if |text| > 0 {
      var init := text[..|text| - 1];
      StrValueIsPackedMod(init);
      var q := Packed(init) / TWO32;
      assert Packed(init) == q * TWO32 + StrValue(init);
      ShiftMod(q, StrValue(init), Ord(text[|text| - 1]));
    }
  }

  /** Shifting a byte in commutes with reduction modulo 2^32. */
  lemma ShiftMod(q: int, v: int, b: int)
    ensures ((q * TWO32 + v) * 256 + b) % TWO32 == (v * 256 + b) % TWO32
  {
    assert (q * TWO32 + v) * 256 + b == (q * 256) * TWO32 + (v * 256 + b);
    AddMultiple(q * 256, v * 256 + b);
  }

  lemma AddMultiple(k: int, x: int)
    ensures (k * TWO32 + x) % TWO32 == x % TWO32
  {
  }

  lemma {:induction false} PackedAppend(a: string, b: string)
    ensures Packed(a + b) == Packed(a) * Pow256(|b|) + Packed(b)
    decreases |b|
  {
    if |b| == 0 {
      assert a + b == a;
    } else {
      var b' := b[..|b| - 1];
      var x := Ord(b[|b| - 1]);
      assert (a + b)[..|a + b| - 1] == a + b';
      assert (a + b)[|a + b| - 1] == b[|b| - 1];
      PackedAppend(a, b');
      ShiftIn(Packed(a), Pow256(|b'|), Packed(b'), x);
    }
  }

  /** Shifting a two-part number left by one byte shifts each part. */
  lemma ShiftIn(pa: int, pw: int, pb: int, x: int)
    ensures (pa * pw + pb) * 256 + x == pa * (256 * pw) + (pb * 256 + x)
  {
  }

  lemma {:induction false} PackedBound(text: string)
    ensures Packed(text) < Pow256(|text|)
    decreases |text|
  {
    if |text| > 0 {
      PackedBound(text[..|text| - 1]);
    }
  }

  lemma {:induction false} PowMultiple(n: nat)
    requires n >= 4
    ensures Pow256(n) % TWO32 == 0
    decreases n
  {
    if n == 4 {
      assert Pow256(4) == TWO32;
    } else {
      PowMultiple(n - 1);
      var k := Pow256(n - 1) / TWO32;
      assert Pow256(n) == (256 * k) * TWO32;
    }
  }

  lemma PowMonotone(n: nat)
    requires n <= 4
    ensures Pow256(n) <= TWO32
  {
    assert Pow256(0) == 1 && Pow256(1) == 256 && Pow256(2) == 65536;
    assert Pow256(3) == 16777216 && Pow256(4) == TWO32;
  }

  /** The last four characters of a string, or all of it when shorter. */
  function LastFour(text: string): (t: string)
    ensures |t| <= 4
  {
    if |text| <= 4 then text else text[|text| - 4..]
  }

  /** str_value keeps only the last four characters, packed big-endian:
      the 32-bit result is exactly their value, and "" gives 0. */
  lemma {:induction false} StrValueKeepsLastFour(text: string)
    ensures StrValue(text) == Packed(LastFour(text))
    ensures text == "" ==> StrValue(text) == 0
  {
    var t := LastFour(text);
    StrValueIsPackedMod(text);
    PackedBound(t);
    PowMonotone(|t|);
    if |text| > 4 {
      DropsPrefix(text[..|text| - 4], t);
      assert text == text[..|text| - 4] + t;
    }
  }

  /** Characters more than four places from the end do not reach the
      32-bit result. */
  lemma {:induction false} DropsPrefix(a: string, t: string)
    requires |t| == 4
    ensures Packed(a + t) % TWO32 == Packed(t) % TWO32
  {
    PackedAppend(a, t);
    PowMultiple(|t|);
    var k := Pow256(|t|) / TWO32;
    assert Packed(a + t) == (Packed(a) * k) * TWO32 + Packed(t);
  }
}
