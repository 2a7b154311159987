/**
 * Alignment of the location counter: .even, .long, .phrase, .dphrase and
 * .qphrase, and the automatic evening that .dc, .dcb and .ds apply to
 * word and long data.  Outside BSS-like sections the gap is filled with
 * zero bytes; inside them only the counter moves.
 */
module Alignment {
  import opened Machine
  import opened Attrs
  import opened Symbols
  import opened State
  import opened Padding

  /** n zero bytes. */
  function Zeros(n: nat): (z: seq<Byte>)
    ensures |z| == n && forall i :: 0 <= i < n ==> z[i] == 0
  {
    if n == 0 then [] else Zeros(n - 1) + [0]
  }

  /** Depositing two runs of bytes is depositing them together. */
  lemma DepositTwice(s: St, a: seq<Byte>, b: seq<Byte>)
    ensures DepositBytes(DepositBytes(s, a), b) == DepositBytes(s, a + b)
  {
  }

  /** d_long (n 4), d_phrase (8), d_dphrase (16), d_qphrase (32, which
      also saves the section before filling): the counter is moved up to
      the next multiple of n. */
  function AlignTo(s: St, n: nat, save: bool): (r: St)
    requires Unit(n)
    ensures r.sect.sloc % n == 0 && s.sect.sloc <= r.sect.sloc < s.sect.sloc + n
    ensures r.sect.sloc == s.sect.sloc + Pad(s.sect.sloc, n)
    ensures s.sect.sloc % n == 0 ==> r == s
    ensures !s.sect.bss ==> r.sect.chunk == s.sect.chunk + Zeros(r.sect.sloc - s.sect.sloc)
    ensures s.sect.bss ==> r == s.(sect := s.sect.(sloc := r.sect.sloc))
    ensures r.symtab == s.symtab && r.tok == s.tok && r.diags == s.diags
    ensures r == s.(sect := r.sect, risc := r.risc)
    ensures r.sect.cursect == s.sect.cursect && r.sect.bss == s.sect.bss && r.sect.justBss == s.sect.justBss
    ensures !s.sect.bss && Pad(s.sect.sloc, n) != 0 ==>
      r.sect.saved == if save then s.sect.saved[s.sect.cursect := Saved(s.sect.sloc, s.sect.chunk)] else s.sect.saved
    ensures !s.sect.bss ==>
      r.risc == if s.risc.orgactive then s.risc.(orgaddr := s.risc.orgaddr + Pad(s.sect.sloc, n)) else s.risc
  {
    var p := Pad(s.sect.sloc, n);
    if p == 0 then s
    else if !s.sect.bss then DepositBytes(if save then SaveSect(s) else s, Zeros(p))
    else Skip(s, p)
  }

  method DAlign(g: Ctx, n: nat, save: bool) returns (st: Status)
    requires Unit(n)
    modifies g
    ensures st == OK && g.Snap() == AlignTo(old(g.Snap()), n, save)
  {
    var p := Pad(g.sect.sloc, n);
    if p != 0 {
      if !g.sect.bss {
        if save {
          SavSect(g);
        }
        ghost var s1 := g.Snap();
        for i := 0 to p
          invariant g.Snap() == DepositBytes(s1, Zeros(i))
        {
          DepositTwice(s1, Zeros(i), [0]);
          DByte(g, 0);
        }
      } else {
        g.sect := g.sect.(sloc := g.sect.sloc + p);
      }
    }
    st := OK;
  }

  /** Aligning twice is aligning once. */
  lemma AlignIdempotent(s: St, n: nat, save: bool)
    requires Unit(n)
    ensures AlignTo(AlignTo(s, n, save), n, save) == AlignTo(s, n, save)
  {
  }

  /** d_even: an odd counter is made even by one zero byte (a step of the
      counter in BSS-like sections). */
  function Even(s: St): (r: St)
    ensures r.sect.sloc % 2 == 0
  {
    if s.sect.sloc % 2 == 1 then
      if !s.sect.bss then DepositByte(s, 0) else Skip(s, 1)
    else s
  }

  method DEven(g: Ctx) returns (st: Status)
    modifies g
    ensures st == OK && g.Snap() == Even(old(g.Snap()))
  {
    if g.sect.sloc % 2 == 1 {
      if !g.sect.bss {
        DByte(g, 0);
      } else {
        g.sect := g.sect.(sloc := g.sect.sloc + 1);
      }
    }
    st := OK;
  }

  /** .even is alignment to 2. */
  lemma EvenIsAlignTwo(s: St)
    ensures Even(s) == AlignTo(s, 2, false)
  {
    if s.sect.sloc % 2 == 1 && !s.sect.bss {
      assert Zeros(1) == [0];
    }
  }

  /** auto_even: one zero byte (or a step of the counter in BSS-like
      sections), and the label defined on the line, if any, moves with it. */
  function AutoEven(s: St): (r: St)
    ensures r.sect.sloc == s.sect.sloc + 1
    ensures r.symtab.Keys == s.symtab.Keys
    ensures forall k :: k in s.symtab && Some(k) != s.line.labSym ==> r.symtab[k] == s.symtab[k]
    ensures s.line.labSym.Some? && s.line.labSym.value in s.symtab ==>
      var k := s.line.labSym.value;
      r.symtab[k] == s.symtab[k].(svalue := (s.symtab[k].svalue + 1) % TWO64)
    ensures r == s.(sect := r.sect, risc := r.risc, symtab := r.symtab)
    ensures !s.sect.bss ==> r.sect == s.sect.(sloc := s.sect.sloc + 1, chunk := s.sect.chunk + [0])
    ensures !s.sect.bss ==> r.risc == if s.risc.orgactive then s.risc.(orgaddr := s.risc.orgaddr + 1) else s.risc
    ensures s.sect.bss ==> r.sect == s.sect.(sloc := s.sect.sloc + 1) && r.risc == s.risc
  {
    var s1 := if s.sect.bss then Skip(s, 1) else DepositByte(s, 0);
    match s.line.labSym
    case Some(k) =>
      if k in s1.symtab then
        var sy := s1.symtab[k];
        s1.(symtab := s1.symtab[k := sy.(svalue := (sy.svalue + 1) % TWO64)])
      else s1
    case None => s1
  }

  method AutoEvenUp(g: Ctx)
    modifies g
    ensures g.Snap() == AutoEven(old(g.Snap()))
  {
    if g.sect.bss {
      g.sect := g.sect.(sloc := g.sect.sloc + 1);
    } else {
      DByte(g, 0);
    }
    if g.line.labSym.Some? && g.line.labSym.value in g.symtab {
      var k := g.line.labSym.value;
      var sy := g.symtab[k];
      g.symtab := g.symtab[k := sy.(svalue := (sy.svalue + 1) % TWO64)];
    }
  }

  /** On an odd counter, auto_even lands where .even would, and a label
      that marked the old location marks the new one. */
  lemma AutoEvenKeepsLabel(s: St)
    requires s.sect.sloc % 2 == 1
    requires s.line.labSym.Some? && s.line.labSym.value in s.symtab
    requires s.symtab[s.line.labSym.value].svalue == s.sect.sloc < TWO32
    ensures AutoEven(s).sect.sloc == Even(s).sect.sloc
    ensures AutoEven(s).symtab[s.line.labSym.value].svalue == AutoEven(s).sect.sloc
  {
  }

  /** The automatic .even of d_dc, d_dcb and d_ds: word and long data
      start on an even location; bytes do not move the counter. */
  function EvenFor(s: St, siz: Size): (r: St)
    ensures siz != SizB ==> r.sect.sloc % 2 == 0
    ensures siz == SizB || s.sect.sloc % 2 == 0 ==> r == s
    ensures s.sect.sloc <= r.sect.sloc <= s.sect.sloc + 1
    ensures r.sect.bss == s.sect.bss && r.sect.cursect == s.sect.cursect
    ensures !s.sect.bss ==> r.sect.chunk == s.sect.chunk + if r.sect.sloc == s.sect.sloc then [] else [0]
    ensures r.fixups == s.fixups && r.marks == s.marks
  {
    if siz != SizB && s.sect.sloc % 2 == 1 then AutoEven(s) else s
  }

  method EvenForData(g: Ctx, siz: Size)
    modifies g
    ensures g.Snap() == EvenFor(old(g.Snap()), siz)
  {
    if siz != SizB && g.sect.sloc % 2 == 1 {
      AutoEvenUp(g);
    }
  }
}
