/**
 * The data directives: dc (constants, strings, and `dc.i` longs with
 * swapped halves), dcb (a block of copies), .init (a list of
 * `[#count,] value [.size]` items) and .ds (reserved space).
 */
module DataDirectives {
  import opened Machine
  import opened Attrs
  import opened Tokens
  import opened Symbols
  import opened TokenClass
  import opened State
  import opened ExprEntry
  import opened AbsExpression
  import opened Alignment
  import opened Deposit
  import Evaluator

  /** The bytes of a string as D_byte stores them: its characters up to
      the first NUL, each cut to its low byte. */
  function CBytes(text: string): (b: seq<Byte>)
    ensures |b| <= |text|
    ensures |b| == |text| || text[|b|] == '\0'
  {
    if |text| == 0 || text[0] == '\0' then [] else [(text[0] as int) % 256] + CBytes(text[1..])
  }

  /** Each byte of CBytes is the low byte of the character at its place,
      and no such character is NUL. */
  lemma {:induction false} CBytesChars(text: string)
    ensures var b := CBytes(text);
      forall i :: 0 <= i < |b| ==> text[i] != '\0' && b[i] == (text[i] as int) % 256
    decreases |text|
  {
    if |text| > 0 && text[0] != '\0' {
      CBytesChars(text[1..]);
      var b := CBytes(text);
      forall i | 0 <= i < |b|
        ensures text[i] != '\0' && b[i] == (text[i] as int) % 256
      {
        if i > 0 {
          assert text[1..][i - 1] == text[i];
        }
      }
    }
  }

  /** The loop that deposits a string's characters. */
  method DepositText(g: Ctx, text: string)
    modifies g
    ensures g.Snap() == DepositBytes(old(g.Snap()), CBytes(text))
  {
    ghost var goal := DepositBytes(g.Snap(), CBytes(text));
    var i := 0;
    assert text[i..] == text;
    while i < |text| && text[i] != '\0'
      invariant i <= |text|
      invariant DepositBytes(g.Snap(), CBytes(text[i..])) == goal
    {
      ghost var before := g.Snap();
      TextStep(before, text, i);
      DByte(g, text[i] as int);
      i := i + 1;
    }
    TextEnd(g.Snap(), text, i);
  }

  /** A character other than NUL contributes its byte and the rest follow. */
  lemma CBytesStep(text: string, i: nat)
    requires i < |text| && text[i] != '\0'
    ensures CBytes(text[i..]) == [(text[i] as int) % 256] + CBytes(text[i + 1..])
  {
    assert text[i..][1..] == text[i + 1..];
  }

  /** Depositing one character, then the rest of the text, deposits the
      text from that character on. */
  lemma TextStep(s: St, text: string, i: nat)
    requires i < |text| && text[i] != '\0'
    ensures DepositBytes(DepositByte(s, text[i] as int), CBytes(text[i + 1..])) == DepositBytes(s, CBytes(text[i..]))
  {
    CBytesStep(text, i);
    DepositTwice(s, [(text[i] as int) % 256], CBytes(text[i + 1..]));
  }

  /** At the end of the text or at a NUL nothing is left to deposit. */
  lemma TextEnd(s: St, text: string, i: nat)
    requires i <= |text| && (i == |text| || text[i] == '\0')
    ensures DepositBytes(s, CBytes(text[i..])) == s
  {
    assert CBytes(text[i..]) == [];
    assert s.sect.(chunk := s.sect.chunk + [], sloc := s.sect.sloc) == s.sect;
  }

  /** The code of the token after the cursor. */
  function CodeAfter(g: Ctx): (c: Code)
    reads g
    ensures c == PeekCode(Next(g.Snap()))
  {
    if g.tok + 1 < |g.toks| then CodeOf(g.toks[g.tok + 1]) else EOL
  }

  // ---------------------------------------------------------------------
  // dc
  // ---------------------------------------------------------------------

  /** Where an item of a list leaves the directive: ended (with the
      status it returns), or deposited, with the size and the `dc.i` flag
      later items use. */
  datatype Step = Stop(st: Status, t: St) | Go(t: St, siz: Size, movei: bool)

  /** A string item of dc.b: a string token followed by a comma or the
      end of the line. */
  predicate TextItem(s: St, siz: Size)
  {
    siz == SizB && Peek(s).Str? && (PeekCode(Next(s)) == ',' as int || PeekCode(Next(s)) == EOL)
  }

  /** An evaluated item whose value deposits as a plain number of size
      siz: defined, absolute, and in the size's range. */
  predicate PlainNumber(e: (Status, Evaluator.Outcome, St), siz: Size)
  {
    && e.0 == OK && Defined in e.1.attr && Tdb(e.1.attr) == {}
    && (siz == SizB ==> ByteFits(e.1.value))
    && (siz in {SizW, SizN} ==> WordFits(e.1.value))
  }

  /** One item of dc.  With size .b, a string followed by a comma or the
      end of the line is deposited byte by byte; otherwise an `I` first
      makes this and every later item a swapped long; then an expression
      is deposited.  A failed expression ends the directive quietly; a
      refused value ends it with an error. */
  function DcValue(s: St, siz: Size, movei: bool): (r: Step)
    ensures r.Go? ==> Remaining(r.t) <= Remaining(s)
    ensures r.Go? && r.siz != siz ==> r.siz == SizL && r.movei
  {
    if TextItem(s, siz) then
      Go(DepositBytes(Next(s), CBytes(Peek(s).text)), siz, movei)
    else
      var isI := PeekCode(s) == 'I' as int;
      var s1 := if isI then Next(s) else s;
      var siz1 := if isI then SizL else siz;
      var mv := movei || isI;
      var e := ExprSpec(s1, None);
      if e.0 != OK then Stop(OK, e.2)
      else
        var d := DepOne(e.2, siz1, e.1.value, e.1.attr, mv);
        if d.0 == ERROR then Stop(ERROR, d.1) else Go(d.1, siz1, mv)
  }

  /** The items of dc, separated by commas; the list must end the line. */
  function DcItems(s: St, siz: Size, movei: bool): (r: (Status, St))
    decreases Remaining(s)
  {
    match DcValue(s, siz, movei)
    case Stop(st, t) => (st, t)
    case Go(t, siz1, mv) =>
      if PeekCode(t) != ',' as int then (OK, AtEol(t)) else DcItems(Next(t), siz1, mv)
  }

  /** d_dc: refused in BSS-like sections; word and long data are evened
      first. */
  function Dc(s: St, siz: Size): (r: (Status, St))
    ensures s.sect.bss ==> r == (ERROR, Fail(s, IllegalInit))
  {
    if s.sect.bss then (ERROR, Fail(s, IllegalInit))
    else DcItems(EvenFor(s, siz), siz, false)
  }

  method DcValueOf(g: Ctx, siz: Size, movei: bool) returns (r: Step)
    requires g.Ready()
    modifies g
    ensures r == DcValue(old(g.Snap()), siz, movei) && (r.Go? ==> r.t == g.Snap())
    ensures r.Stop? ==> r.t == g.Snap()
  {
    var t := g.Cur();
    if siz == SizB && t.Str? && (CodeAfter(g) == ',' as int || CodeAfter(g) == EOL) {
      Advance(g);
      DepositText(g, t.text);
      return Go(g.Snap(), siz, movei);
    }
    var size, mv := siz, movei;
    if CodeOf(t) == 'I' as int {
      Advance(g);
      size, mv := SizL, true;
    }
    var ok, out := Expr(g, None);
    if ok != OK {
      return Stop(OK, g.Snap());
    }
    ok := DepositOne(g, size, out.value, out.attr, mv);
    if ok == ERROR {
      return Stop(ERROR, g.Snap());
    }
    r := Go(g.Snap(), size, mv);
  }

  method DDc(g: Ctx, siz: Size) returns (st: Status)
    requires g.Ready()
    modifies g
    ensures (st, g.Snap()) == Dc(old(g.Snap()), siz)
  {
    if g.sect.bss {
      ReportError(g, IllegalInit);
      return ERROR;
    }
    EvenForData(g, siz);
    var size := siz;
    var movei := false;
    ghost var goal := DcItems(g.Snap(), size, movei);
    while true
      invariant g.Ready()
      invariant DcItems(g.Snap(), size, movei) == goal
      decreases Remaining(g.Snap())
    {
      var done;
      done, st, size, movei := DcNext(g, size, movei);
      if done {
        return;
      }
    }
  }

  /** One item of dc and the separator after it: either the directive
      ends here, or the rest of the list starts after a comma. */
  method DcNext(g: Ctx, siz: Size, movei: bool) returns (done: bool, st: Status, siz1: Size, mv: bool)
    requires g.Ready()
    modifies g
    ensures g.Ready()
    ensures done ==> (st, g.Snap()) == DcItems(old(g.Snap()), siz, movei)
    ensures !done ==> DcItems(g.Snap(), siz1, mv) == DcItems(old(g.Snap()), siz, movei)
    ensures !done ==> Remaining(g.Snap()) < Remaining(old(g.Snap()))
  {
    DcItemsUnfold(g.Snap(), siz, movei);
    var r := DcValueOf(g, siz, movei);
    if r.Stop? {
      return true, r.st, siz, movei;
    }
    siz1, mv := r.siz, r.movei;
    if CodeOf(g.Cur()) != ',' as int {
      CheckEol(g);
      return true, OK, siz1, mv;
    }
    Advance(g);
    done, st := false, OK;
  }

  /** One step of the list of dc, in terms of its first item. */
  lemma DcItemsUnfold(s: St, siz: Size, movei: bool)
    ensures var v := DcValue(s, siz, movei);
      && (v.Stop? ==> DcItems(s, siz, movei) == (v.st, v.t))
      && (v.Go? && PeekCode(v.t) != ',' as int ==> DcItems(s, siz, movei) == (OK, AtEol(v.t)))
      && (v.Go? && PeekCode(v.t) == ',' as int ==> DcItems(s, siz, movei) == DcItems(Next(v.t), v.siz, v.movei))
  {
  }

  /** `dc.b "text"` alone on the line deposits the text's bytes, and
      nothing else happens. */
  lemma DcString(s: St, text: string)
    requires !s.sect.bss && Peek(s) == Str(text) && PeekCode(Next(s)) == EOL
    ensures Dc(s, SizB) == (OK, DepositBytes(Next(s), CBytes(text)))
  {
    var t := DepositBytes(Next(s), CBytes(text));
    assert DcValue(s, SizB, false) == Go(t, SizB, false);
    assert PeekCode(t) == EOL;
  }

  /** A number item of dc, not led by `I`, whose value deposits plainly
      is deposited once, big endian, with no fixup and no mark; the items
      after it keep the size. */
  lemma DcNumber(s: St, siz: Size)
    requires PeekCode(s) != 'I' as int && !TextItem(s, siz)
    requires PlainNumber(ExprSpec(s, None), siz)
    ensures var e := ExprSpec(s, None);
      var r := DcValue(s, siz, false);
      && r.Go? && r.siz == siz && !r.movei
      && PeekCode(r.t) == PeekCode(e.2)
      && r.t.sect.chunk == s.sect.chunk + BigEndian(e.1.value, Width(siz))
      && r.t.fixups == s.fixups && r.t.marks == s.marks && r.t.diags == e.2.diags
  {
    var e := ExprSpec(s, None);
    AbsoluteOne(e.2, siz, e.1.value, e.1.attr);
  }

  /** `dc v` alone on the line, v a number that deposits plainly: after
      the automatic .even, the value's big-endian bytes and nothing else. */
  lemma DcOne(s: St, siz: Size)
    requires !s.sect.bss
    requires var t := EvenFor(s, siz);
      && PeekCode(t) != 'I' as int && !TextItem(t, siz)
      && PlainNumber(ExprSpec(t, None), siz) && PeekCode(ExprSpec(t, None).2) == EOL
    ensures var t := EvenFor(s, siz);
      var e := ExprSpec(t, None);
      var r := Dc(s, siz);
      && r.0 == OK
      && r.1.sect.chunk == t.sect.chunk + BigEndian(e.1.value, Width(siz))
      && r.1.fixups == t.fixups && r.1.marks == t.marks && r.1.diags == e.2.diags
  {
    var t := EvenFor(s, siz);
    DcNumber(t, siz);
    DcItemsUnfold(t, siz, false);
  }

  /** `dc v1,v2`, both numbers that deposit plainly: the two values'
      big-endian bytes, in order, and nothing else. */
  lemma DcTwo(s: St, siz: Size)
    requires !s.sect.bss
    requires var t := EvenFor(s, siz);
      var e1 := ExprSpec(t, None);
      var u := Next(DcValue(t, siz, false).t);
      var e2 := ExprSpec(u, None);
      && PeekCode(t) != 'I' as int && !TextItem(t, siz) && PlainNumber(e1, siz) && PeekCode(e1.2) == ',' as int
      && PeekCode(u) != 'I' as int && !TextItem(u, siz) && PlainNumber(e2, siz) && PeekCode(e2.2) == EOL
    ensures var t := EvenFor(s, siz);
      var e1 := ExprSpec(t, None);
      var e2 := ExprSpec(Next(DcValue(t, siz, false).t), None);
      var r := Dc(s, siz);
      && r.0 == OK
      && r.1.sect.chunk == t.sect.chunk + BigEndian(e1.1.value, Width(siz)) + BigEndian(e2.1.value, Width(siz))
      && r.1.fixups == t.fixups && r.1.marks == t.marks
  {
    var t := EvenFor(s, siz);
    DcNumber(t, siz);
    DcItemsUnfold(t, siz, false);
    var u := Next(DcValue(t, siz, false).t);
    DcNumber(u, siz);
    DcItemsUnfold(u, siz, false);
  }

  /** Once an `I` item is seen, every later item of the line is a long
      with swapped halves. */
  lemma {:induction false} MoveiSticks(s: St)
    requires PeekCode(s) == 'I' as int
    ensures DcValue(s, SizB, false).Go? ==> DcValue(s, SizB, false).siz == SizL && DcValue(s, SizB, false).movei
  {
  }

  // ---------------------------------------------------------------------
  // dcb
  // ---------------------------------------------------------------------

  /** d_dcb: `dcb count,value`: refused in BSS-like sections; the count
      must be absolute and be followed by a comma; word and long blocks
      are evened after the value is read. */
  function Dcb(s: St, siz: Size): (r: (Status, St))
    ensures r.0 == ERROR <==> s.sect.bss || (AbsExpr(s).0 == OK && PeekCode(AbsExpr(s).2) != ',' as int)
    ensures s.sect.bss ==> r.1 == Fail(s, IllegalInit)
    ensures !s.sect.bss && r.0 == ERROR ==> r.1 == Fail(Next(AbsExpr(s).2), MissingComma)
  {
    if s.sect.bss then (ERROR, Fail(s, IllegalInit))
    else
      var a := AbsExpr(s);
      if a.0 != OK then (OK, a.2)
      else if PeekCode(a.2) != ',' as int then (ERROR, Fail(Next(a.2), MissingComma))
      else
        var e := ExprSpec(Next(a.2), None);
        if e.0 != OK then (OK, e.2)
        else
          (OK, DepBlock(EvenFor(e.2, siz), a.1, siz, e.1.value, e.1.attr).1)
  }

  method DDcb(g: Ctx, siz: Size) returns (st: Status)
    requires g.Ready()
    modifies g
    ensures (st, g.Snap()) == Dcb(old(g.Snap()), siz)
  {
    if g.sect.bss {
      ReportError(g, IllegalInit);
      return ERROR;
    }
    var ok, count := AbsExprOf(g);
    if ok != OK {
      return OK;
    }
    var c := CodeOf(g.Cur());
    Advance(g);
    if c != ',' as int {
      ReportError(g, MissingComma);
      return ERROR;
    }
    var out;
    ok, out := Expr(g, None);
    if ok != OK {
      return OK;
    }
    EvenForData(g, siz);
    var _ := DepositBlock(g, count, siz, out.value, out.attr);
    st := OK;
  }

  /** `dcb count,value` with an absolute count and a defined absolute
      value that fits deposits `count` big-endian copies of the value after
      the automatic .even, and leaves no fixup and no mark. */
  lemma DcbOfAbsolute(s: St, siz: Size)
    requires !s.sect.bss
    requires AbsExpr(s).0 == OK && PeekCode(AbsExpr(s).2) == ',' as int
    requires var e := ExprSpec(Next(AbsExpr(s).2), None);
      && e.0 == OK && Defined in e.1.attr && Tdb(e.1.attr) == {}
      && (siz == SizB ==> ByteFits(e.1.value))
      && (siz in {SizW, SizN} ==> WordFits(e.1.value))
    ensures var a := AbsExpr(s);
      var e := ExprSpec(Next(a.2), None);
      var t := EvenFor(e.2, siz);
      var r := Dcb(s, siz);
      && r.0 == OK
      && r.1.sect.chunk == t.sect.chunk + Repeat(BigEndian(e.1.value, Width(siz)), a.1)
      && r.1.sect.sloc == t.sect.sloc + a.1 * Width(siz)
      && r.1.fixups == s.fixups && r.1.marks == s.marks
  {
    var a := AbsExpr(s);
    var e := ExprSpec(Next(a.2), None);
    var t := EvenFor(e.2, siz);
    BlockOfAbsolute(t, a.1, siz, e.1.value, e.1.attr);
    BlockAllOrNothing(t, a.1, siz, e.1.value, e.1.attr);
  }

  // ---------------------------------------------------------------------
  // .init
  // ---------------------------------------------------------------------

  /** The size an item's suffix selects, or the directive's default when
      it has none. */
  function InitSuffix(c: Code, def: Size): (z: Size)
    ensures c == DOTB ==> z == SizB
    ensures c == DOTW ==> z == SizW
    ensures c == DOTL ==> z == SizL
    ensures c != DOTB && c != DOTW && c != DOTL ==> z == def
  {
    if c == DOTB then SizB else if c == DOTW then SizW else if c == DOTL then SizL else def
  }

  /** The suffix switch of d_init as written: `.w` selects a byte. */
  function InitSuffixAsWritten(c: Code, def: Size): Size
  {
    if c == DOTB then SizB else if c == DOTW then SizB else if c == DOTL then SizL else def
  }

  /** The repeat count of an item: `#count,` or 1. */
  datatype Counted = Quit(st: Status, t: St) | Counted(t: St, count: Word)

  function InitCount(s: St): (r: Counted)
    ensures r.Counted? ==> Remaining(r.t) <= Remaining(s)
    ensures PeekCode(s) != '#' as int ==> r == Counted(s, 1)
  {
    if PeekCode(s) == '#' as int then
      var a := AbsExpr(Next(s));
      if a.0 != OK then Quit(OK, a.2)
      else if PeekCode(a.2) != ',' as int then Quit(ERROR, Fail(Next(a.2), MissingComma))
      else Counted(Next(a.2), a.1)
    else Counted(s, 1)
  }

  /** The value of an item, its optional suffix, and the block of `count`
      copies it makes. */
  function InitBlock(s: St, count: Word, def: Size): (r: Step)
    ensures r.Go? ==> Remaining(r.t) <= Remaining(s)
  {
    var e := ExprSpec(s, None);
    if e.0 != OK then Stop(OK, e.2)
    else
      var c := PeekCode(e.2);
      var siz := InitSuffix(c, def);
      var s1 := if c == DOTB || c == DOTW || c == DOTL then Next(e.2) else e.2;
      Go(DepBlock(s1, count, siz, e.1.value, e.1.attr).1, siz, false)
  }

  /** One `[#count,] value [.size]` item of .init. */
  function InitItem(s: St, def: Size): (r: Step)
    ensures r.Go? ==> Remaining(r.t) <= Remaining(s)
  {
    match InitCount(s)
    case Quit(st, t) => Stop(st, t)
    case Counted(t, n) => InitBlock(t, n, def)
  }

  /** The items of .init: after each, the end of the line ends the
      directive, a comma introduces the next item, and anything else is an
      error. */
  function InitItems(s: St, def: Size): (r: (Status, St))
    decreases Remaining(s)
  {
    match InitItem(s, def)
    case Stop(st, t) => (st, t)
    case Go(d, _, _) =>
      if PeekCode(d) == EOL then (OK, d)
      else if PeekCode(d) == ',' as int then InitItems(Next(d), def)
      else (ERROR, Fail(d, MissingComma))
  }

  /** d_init: refused in BSS-like sections and in RISC mode. */
  function Init(s: St, def: Size): (r: (Status, St))
    ensures s.sect.bss ==> r == (ERROR, Fail(s, InitInBss))
    ensures !s.sect.bss && InRisc(s) ==> r == (ERROR, Fail(s, ForbiddenInRisc))
  {
    if s.sect.bss then (ERROR, Fail(s, InitInBss))
    else if InRisc(s) then (ERROR, Fail(s, ForbiddenInRisc))
    else InitItems(s, def)
  }

  method InitCountOf(g: Ctx) returns (r: Counted)
    requires g.Ready()
    modifies g
    ensures r == InitCount(old(g.Snap())) && r.t == g.Snap()
  {
    if CodeOf(g.Cur()) != '#' as int {
      return Counted(g.Snap(), 1);
    }
    Advance(g);
    var ok, count := AbsExprOf(g);
    if ok != OK {
      return Quit(OK, g.Snap());
    }
    var c := CodeOf(g.Cur());
    Advance(g);
    if c != ',' as int {
      ReportError(g, MissingComma);
      return Quit(ERROR, g.Snap());
    }
    r := Counted(g.Snap(), count);
  }

  method InitItemOf(g: Ctx, def: Size) returns (r: Step)
    requires g.Ready()
    modifies g
    ensures g.Ready()
    ensures r == InitItem(old(g.Snap()), def) && r.t == g.Snap()
  {
    var n := InitCountOf(g);
    if n.Quit? {
      return Stop(n.st, n.t);
    }
    r := InitBlockOf(g, n.count, def);
  }

  method InitBlockOf(g: Ctx, count: Word, def: Size) returns (r: Step)
    requires g.Ready()
    modifies g
    ensures r == InitBlock(old(g.Snap()), count, def) && r.t == g.Snap()
  {
    var ok, out := Expr(g, None);
    if ok != OK {
      return Stop(OK, g.Snap());
    }
    var c := CodeOf(g.Cur());
    var siz := InitSuffix(c, def);
    if c == DOTB || c == DOTW || c == DOTL {
      Advance(g);
    }
    var _ := DepositBlock(g, count, siz, out.value, out.attr);
    r := Go(g.Snap(), siz, false);
  }

  method DInit(g: Ctx, def: Size) returns (st: Status)
    requires g.Ready()
    modifies g
    ensures (st, g.Snap()) == Init(old(g.Snap()), def)
  {
    if g.sect.bss {
      ReportError(g, InitInBss);
      return ERROR;
    }
    if g.risc.rgpu || g.risc.rdsp {
      ReportError(g, ForbiddenInRisc);
      return ERROR;
    }
    ghost var goal := InitItems(g.Snap(), def);
    while true
      invariant g.Ready()
      invariant InitItems(g.Snap(), def) == goal
      decreases Remaining(g.Snap())
    {
      var done;
      done, st := InitNext(g, def);
      if done {
        return;
      }
    }
  }

  /** One item of .init and the separator after it. */
  method InitNext(g: Ctx, def: Size) returns (done: bool, st: Status)
    requires g.Ready()
    modifies g
    ensures g.Ready()
    ensures done ==> (st, g.Snap()) == InitItems(old(g.Snap()), def)
    ensures !done ==> InitItems(g.Snap(), def) == InitItems(old(g.Snap()), def)
    ensures !done ==> Remaining(g.Snap()) < Remaining(old(g.Snap()))
  {
    ghost var s := g.Snap();
    var r := InitItemOf(g, def);
    if r.Stop? {
      assert InitItems(s, def) == (r.st, r.t);
      return true, r.st;
    }
    var c := CodeOf(g.Cur());
    if c == EOL {
      assert InitItems(s, def) == (OK, r.t);
      return true, OK;
    } else if c != ',' as int {
      assert InitItems(s, def) == (ERROR, Fail(r.t, MissingComma));
      ReportError(g, MissingComma);
      return true, ERROR;
    }
    assert InitItems(s, def) == InitItems(Next(r.t), def);
    Advance(g);
    done, st := false, OK;
  }

  /** An item without a repeat count whose value is defined, absolute
      and fits the size its suffix selects is deposited once, big endian. */
  lemma InitSingle(s: St, def: Size)
    requires PeekCode(s) != '#' as int
    requires var e := ExprSpec(s, None);
      var siz := InitSuffix(PeekCode(e.2), def);
      && e.0 == OK && Defined in e.1.attr && Tdb(e.1.attr) == {}
      && (siz == SizB ==> ByteFits(e.1.value))
      && (siz in {SizW, SizN} ==> WordFits(e.1.value))
    ensures var e := ExprSpec(s, None);
      var siz := InitSuffix(PeekCode(e.2), def);
      var r := InitItem(s, def);
      && r.Go? && r.siz == siz
      && r.t.sect.chunk == s.sect.chunk + BigEndian(e.1.value, Width(siz))
      && r.t.fixups == s.fixups && r.t.marks == s.marks
  {
    var e := ExprSpec(s, None);
    var c := PeekCode(e.2);
    var siz := InitSuffix(c, def);
    var s1 := if c == DOTB || c == DOTW || c == DOTL then Next(e.2) else e.2;
    BlockOfAbsolute(s1, 1, siz, e.1.value, e.1.attr);
    assert Repeat(BigEndian(e.1.value, Width(siz)), 1) == BigEndian(e.1.value, Width(siz));
  }

  /** `.init 1000.w`: as written the `.w` suffix selects a byte, and 1000
      is refused as out of range; the intended word is deposited as the
      bytes 3 and 232. */
  lemma InitWordSuffix(s: St)
    ensures InitSuffixAsWritten(DOTW, SizL) == SizB && InitSuffix(DOTW, SizL) == SizW
    ensures DepOne(s, SizB, 1000, {Defined}, false) == (ERROR, Fail(s, RangeError))
    ensures DepOne(s, SizW, 1000, {Defined}, false).0 == OK
    ensures DepOne(s, SizW, 1000, {Defined}, false).1.sect.chunk == s.sect.chunk + [3, 232]
  {
    assert !ByteFits(1000) && WordFits(1000);
    assert BigEndian(1000, 2) == [3, 232];
  }

  // ---------------------------------------------------------------------
  // .ds
  // ---------------------------------------------------------------------

  /** d_ds: allowed only in BSS-like sections unless Alcyon compatibility
      is on; word and long reservations are evened first. */
  function Ds(s: St, siz: Size): (r: (Status, St))
    ensures !s.line.as68 && !s.sect.bss ==> r == (ERROR, Fail(s, DsOnlyInBss))
    ensures s.line.as68 || s.sect.bss ==> r.0 == OK
  {
    if !s.line.as68 && !s.sect.bss then (ERROR, Fail(s, DsOnlyInBss))
    else (OK, Reserve(EvenFor(s, siz), siz))
  }

  /** The reservation itself.  In a BSS-like section the counter moves by
      count times the size code and nothing is stored; elsewhere zeros are
      deposited through dep_block.  An expression abs_expr refuses ends the
      directive without reserving. */
  function Reserve(s: St, siz: Size): (r: St)
  {
    var a := AbsExpr(s);
    if a.0 != OK then a.2
    else if a.2.sect.bss then AtEol(Grow(a.2, Mul(a.1, SizeCode(siz))))
    else AtEol(DepBlock(a.2, a.1, siz, 0, {Defined}).1)
  }

  /** Moving the counter of a BSS-like section over reserved space. */
  function Grow(s: St, n: Word): (r: St)
    ensures r.sect.sloc == s.sect.sloc + n && r.sect.chunk == s.sect.chunk
    ensures r.sect.justBss && r == s.(sect := r.sect)
    ensures r.sect.cursect == s.sect.cursect && r.sect.bss == s.sect.bss && r.sect.saved == s.sect.saved
  {
    s.(sect := s.sect.(sloc := s.sect.sloc + n, justBss := true))
  }

  method GrowBy(g: Ctx, n: Word)
    modifies g
    ensures g.Snap() == Grow(old(g.Snap()), n)
  {
    g.sect := g.sect.(sloc := g.sect.sloc + n, justBss := true);
  }

  method ReserveSpace(g: Ctx, siz: Size)
    requires g.Ready()
    modifies g
    ensures g.Snap() == Reserve(old(g.Snap()), siz)
  {
    var ok, count := AbsExprOf(g);
    if ok != OK {
      return;
    }
    if g.sect.bss {
      GrowBy(g, Mul(count, SizeCode(siz)));
    } else {
      var _ := DepositBlock(g, count, siz, 0, {Defined});
    }
    CheckEol(g);
  }

  method DDs(g: Ctx, siz: Size) returns (st: Status)
    requires g.Ready()
    modifies g
    ensures (st, g.Snap()) == Ds(old(g.Snap()), siz)
  {
    if !g.line.as68 && !g.sect.bss {
      ReportError(g, DsOnlyInBss);
      return ERROR;
    }
    EvenForData(g, siz);
    ReserveSpace(g, siz);
    st := OK;
  }

  /** In a BSS-like section .ds only moves the counter: by the count times
      the size code, after the automatic .even; nothing is stored. */
  lemma DsInBss(s: St, siz: Size)
    requires s.sect.bss && AbsExpr(EvenFor(s, siz)).0 == OK
    ensures var t := EvenFor(s, siz);
      var a := AbsExpr(t);
      var r := Ds(s, siz);
      && r.0 == OK
      && r.1.sect.sloc == t.sect.sloc + Mul(a.1, SizeCode(siz))
      && r.1.sect.chunk == s.sect.chunk && r.1.fixups == s.fixups && r.1.marks == s.marks
      && r.1.sect.justBss
  {
  }

  /** The reservation outside BSS: count zero values of the size. */
  lemma ReserveZeros(t: St, siz: Size)
    requires !t.sect.bss && AbsExpr(t).0 == OK
    ensures var a := AbsExpr(t);
      var r := Reserve(t, siz);
      && r.sect.chunk == t.sect.chunk + Repeat(BigEndian(0, Width(siz)), a.1)
      && r.sect.sloc == t.sect.sloc + a.1 * Width(siz)
      && r.fixups == t.fixups && r.marks == t.marks
  {
    var a := AbsExpr(t);
    assert a.2.sect == t.sect && a.2.fixups == t.fixups && a.2.marks == t.marks;
    var b := DepBlock(a.2, a.1, siz, 0, {Defined});
    BlockOfAbsolute(a.2, a.1, siz, 0, {Defined});
    BlockAllOrNothing(a.2, a.1, siz, 0, {Defined});
    assert Reserve(t, siz) == AtEol(b.1);
  }

  /** Elsewhere (Alcyon compatibility) .ds deposits count zero values of
      the size. */
  lemma DsZeros(s: St, siz: Size)
    requires s.line.as68 && !s.sect.bss && AbsExpr(EvenFor(s, siz)).0 == OK
    ensures var t := EvenFor(s, siz);
      var a := AbsExpr(t);
      var r := Ds(s, siz);
      && r.0 == OK
      && r.1.sect.chunk == t.sect.chunk + Repeat(BigEndian(0, Width(siz)), a.1)
      && r.1.sect.sloc == t.sect.sloc + a.1 * Width(siz)
      && r.1.fixups == s.fixups && r.1.marks == s.marks
  {
    var t := EvenFor(s, siz);
    assert t.fixups == s.fixups && t.marks == s.marks;
    ReserveZeros(t, siz);
  }
}
