/**
 * Depositing one value, and dep_block: `count` copies of a value of a
 * given size in the current section.  A value not yet defined is left to
 * a fixup and deposited as zero; a defined one is range-checked, and a
 * relocatable word or long gets a relocation mark.
 */
module Deposit {
  import opened Machine
  import opened Attrs
  import opened Symbols
  import opened State

  /** The number of bytes a size deposits (no suffix is a word). */
  function Width(siz: Size): (w: nat)
    ensures w in {1, 2, 4}
  {
    match siz
    case SizB => 1
    case SizW => 2
    case SizN => 2
    case SizL => 4
  }

  /** A word read as a signed 64-bit value. */
  function Signed64(v: Word): int
  {
    if v >= TWO64 / 2 then v - TWO64 else v
  }

  /** The byte range test, in 64-bit unsigned arithmetic:
      eval + 0x100 < 0x200. */
  predicate ByteFits(v: Word) { (v + 0x100) % TWO64 < 0x200 }

  /** The word range test: eval + 0x10000 < 0x20000. */
  predicate WordFits(v: Word) { (v + 0x1_0000) % TWO64 < 0x2_0000 }

  /** The tests admit exactly the values from -256 to 255 (bytes) and from
      -65536 to 65535 (words), read as signed: the union of the signed and
      the unsigned range, and one more below. */
  lemma FitsAreSignedRanges(v: Word)
    ensures ByteFits(v) <==> -0x100 <= Signed64(v) < 0x100
    ensures WordFits(v) <==> -0x1_0000 <= Signed64(v) < 0x1_0000
  {
  }

  /** One value of size `siz` with attribute word `attr` (the body of
      dep_block's loop, and of .dc's, where `movei` marks a `dc.i` long:
      its fixup is the MOVEI kind and its halves are swapped). */
  function DepOne(s: St, siz: Size, v: Word, attr: Attr, movei: bool): (r: (Status, St))
    ensures r.0 == OK ==> r.1.sect.sloc == s.sect.sloc + Width(siz) && r.1.diags == s.diags
    ensures r.0 == ERROR ==>
      && r.1.sect == s.sect
      && r.1.diags == s.diags + [Error(if siz == SizB && Tdb(attr) != {} then NonAbsByte else RangeError)]
    ensures r.1 == s.(sect := r.1.sect, risc := r.1.risc, fixups := r.1.fixups, marks := r.1.marks, diags := r.1.diags)
    ensures r.0 == ERROR <==> Defined in attr && ((siz == SizB && (Tdb(attr) != {} || !ByteFits(v))) ||
                                                  (siz in {SizW, SizN} && !WordFits(v)))
    ensures Defined !in attr ==>
      && r.1.fixups == s.fixups + [Fixup(FixupKind(siz, movei), s.sect.cursect, s.sect.sloc, s.buf)]
      && r.1.sect.chunk == s.sect.chunk + BigEndian(0, Width(siz))
      && r.1.marks == s.marks
    ensures Defined in attr ==> r.1.fixups == s.fixups
    ensures Defined in attr && r.0 == OK ==>
      && r.1.sect.chunk == s.sect.chunk + BigEndian(if siz == SizL && movei then SwapHalves(v) else v, Width(siz))
      && r.1.marks == s.marks + (if Tdb(attr) != {} then [Mark(s.sect.cursect, s.sect.sloc, Tdb(attr), MarkWidth(siz))] else [])
  {
    var tdb := Tdb(attr);
    if Defined !in attr then
      var s1 := AddFixup(s, FixupKind(siz, movei));
      assert [0 % 256] == BigEndian(0, 1);
      (OK, DepositBytes(s1, BigEndian(0, Width(siz))))
    else if siz == SizB then
      if tdb != {} then (ERROR, Fail(s, NonAbsByte))
      else if !ByteFits(v) then (ERROR, Fail(s, RangeError))
      else
        assert [v % 256] == BigEndian(v, 1);
        (OK, DepositByte(s, v))
    else
      var s1 := if tdb != {} then AddMark(s, tdb, MarkWidth(siz)) else s;
      if siz == SizL then (OK, DepositLong(s1, if movei then SwapHalves(v) else v))
      else if !WordFits(v) then (ERROR, Fail(s1, RangeError))
      else (OK, DepositWord(s1, v))
  }

  /** The fixup kind of an undefined value of a size. */
  function FixupKind(siz: Size, movei: bool): FixKind
  {
    match siz
    case SizB => FuByteSext
    case SizL => if movei then FuLongMovei else FuLong
    case _ => FuWordSext
  }

  /** The mark width of a relocatable value of a size. */
  function MarkWidth(siz: Size): MarkWidth
  {
    if siz == SizL then MLong else MWord
  }

  method DepositOne(g: Ctx, siz: Size, v: Word, attr: Attr, movei: bool) returns (st: Status)
    modifies g
    ensures (st, g.Snap()) == DepOne(old(g.Snap()), siz, v, attr, movei)
  {
    var tdb := attr * TDB;
    st := OK;
    if Defined !in attr {
      RecordFixup(g, FixupKind(siz, movei));
      assert [0 % 256] == BigEndian(0, 1);
      match siz {
        case SizB => DByte(g, 0);
        case SizL => DLong(g, 0);
        case _ => DWord(g, 0);
      }
    } else if siz == SizB {
      if tdb != {} {
        ReportError(g, NonAbsByte);
        return ERROR;
      }
      if (v + 0x100) % TWO64 >= 0x200 {
        ReportError(g, RangeError);
        return ERROR;
      }
      assert [v % 256] == BigEndian(v, 1);
      DByte(g, v);
    } else {
      if tdb != {} {
        RecordMark(g, tdb, MarkWidth(siz));
      }
      if siz == SizL {
        DLong(g, if movei then SwapHalves(v) else v);
      } else {
        if (v + 0x1_0000) % TWO64 >= 0x2_0000 {
          ReportError(g, RangeError);
          return ERROR;
        }
        DWord(g, v);
      }
    }
  }

  /** dep_block: `count` copies, stopping at the first refused one. */
  function DepBlock(s: St, count: nat, siz: Size, v: Word, attr: Attr): (r: (Status, St))
    ensures r.1 == s.(sect := r.1.sect, risc := r.1.risc, fixups := r.1.fixups, marks := r.1.marks, diags := r.1.diags)
    decreases count
  {
    if count == 0 then (OK, s)
    else
      var d := DepOne(s, siz, v, attr, false);
      if d.0 == ERROR then d else DepBlock(d.1, count - 1, siz, v, attr)
  }

  method DepositBlock(g: Ctx, count: Word, siz: Size, v: Word, attr: Attr) returns (st: Status)
    modifies g
    ensures (st, g.Snap()) == DepBlock(old(g.Snap()), count, siz, v, attr)
  {
    var n := count;
    while n > 0
      invariant DepBlock(g.Snap(), n, siz, v, attr) == DepBlock(old(g.Snap()), count, siz, v, attr)
      decreases n
    {
      st := DepositOne(g, siz, v, attr, false);
      if st == ERROR {
        return;
      }
      n := n - 1;
    }
    st := OK;
  }

  /** Whether one value is refused depends only on the value, its
      attributes and the size, so dep_block deposits either every copy
      or none: a refusal comes at the first copy. */
  lemma {:induction false} BlockAllOrNothing(s: St, count: nat, siz: Size, v: Word, attr: Attr)
    ensures var r := DepBlock(s, count, siz, v, attr);
      r.0 == ERROR ==> count > 0 && r == DepOne(s, siz, v, attr, false)
    ensures DepBlock(s, count, siz, v, attr).0 == OK ==>
      DepBlock(s, count, siz, v, attr).1.sect.sloc == s.sect.sloc + count * Width(siz)
    decreases count
  {
    if count > 0 {
      var d := DepOne(s, siz, v, attr, false);
      if d.0 == OK {
        BlockAllOrNothing(d.1, count - 1, siz, v, attr);
        assert DepBlock(d.1, count - 1, siz, v, attr).0 == ERROR ==> DepOne(d.1, siz, v, attr, false).0 == ERROR;
        var w := Width(siz);
        assert d.1.sect.sloc == s.sect.sloc + w;
        assert w + (count - 1) * w == count * w;
      }
    }
  }

  /** n copies of a byte run. */
  function Repeat(b: seq<Byte>, n: nat): (r: seq<Byte>)
    ensures |r| == n * |b|
  {
    if n == 0 then [] else b + Repeat(b, n - 1)
  }

  /** One copy of a defined absolute value that fits. */
  lemma AbsoluteOne(s: St, siz: Size, v: Word, attr: Attr)
    requires Defined in attr && Tdb(attr) == {}
    requires siz == SizB ==> ByteFits(v)
    requires siz in {SizW, SizN} ==> WordFits(v)
    ensures var d := DepOne(s, siz, v, attr, false);
      && d.0 == OK
      && d.1.sect.chunk == s.sect.chunk + BigEndian(v, Width(siz))
      && d.1.fixups == s.fixups && d.1.marks == s.marks && d.1.diags == s.diags
  {
  }

  /** A defined absolute value that fits is deposited `count` times, big
      endian, with no fixup and no mark. */
  lemma {:induction false} BlockOfAbsolute(s: St, count: nat, siz: Size, v: Word, attr: Attr)
    requires Defined in attr && Tdb(attr) == {}
    requires siz == SizB ==> ByteFits(v)
    requires siz in {SizW, SizN} ==> WordFits(v)
    ensures var r := DepBlock(s, count, siz, v, attr);
      && r.0 == OK
      && r.1.sect.chunk == s.sect.chunk + Repeat(BigEndian(v, Width(siz)), count)
      && r.1.fixups == s.fixups && r.1.marks == s.marks && r.1.diags == s.diags
    decreases count
  {
    if count > 0 {
      var d := DepOne(s, siz, v, attr, false);
      var b := BigEndian(v, Width(siz));
      AbsoluteOne(s, siz, v, attr);
      BlockOfAbsolute(d.1, count - 1, siz, v, attr);
      var rest := DepBlock(d.1, count - 1, siz, v, attr);
      assert DepBlock(s, count, siz, v, attr) == rest;
      calc {
        rest.1.sect.chunk;
        d.1.sect.chunk + Repeat(b, count - 1);
        (s.sect.chunk + b) + Repeat(b, count - 1);
        s.sect.chunk + (b + Repeat(b, count - 1));
        s.sect.chunk + Repeat(b, count);
      }
    }
  }

  /** An undefined value leaves one fixup per copy, each at the location
      of its copy, and zero bytes in their place. */
  lemma {:induction false} BlockOfUndefined(s: St, count: nat, siz: Size, v: Word, attr: Attr, i: nat)
    requires Defined !in attr && i < count
    ensures var r := DepBlock(s, count, siz, v, attr);
      && r.0 == OK
      && |r.1.fixups| == |s.fixups| + count
      && r.1.fixups[|s.fixups| + i] == Fixup(FixupKind(siz, false), s.sect.cursect, s.sect.sloc + i * Width(siz), s.buf)
    decreases count
  {
    var d := DepOne(s, siz, v, attr, false);
    if i == 0 {
      BlockKeepsLog(d.1, count - 1, siz, v, attr);
    } else {
      BlockOfUndefined(d.1, count - 1, siz, v, attr, i - 1);
      BlockKeepsLog(d.1, count - 1, siz, v, attr);
    }
  }

  /** An undefined block only adds fixups, at the end of the log. */
  lemma {:induction false} BlockKeepsLog(s: St, count: nat, siz: Size, v: Word, attr: Attr)
    requires Defined !in attr
    ensures var r := DepBlock(s, count, siz, v, attr);
      && r.0 == OK
      && |r.1.fixups| == |s.fixups| + count
      && r.1.fixups[..|s.fixups|] == s.fixups
      && r.1.sect.cursect == s.sect.cursect && r.1.buf == s.buf
    decreases count
  {
    if count > 0 {
      var d := DepOne(s, siz, v, attr, false);
      BlockKeepsLog(d.1, count - 1, siz, v, attr);
      var r := DepBlock(d.1, count - 1, siz, v, attr);
      assert r.1.fixups[..|s.fixups|] == r.1.fixups[..|d.1.fixups|][..|s.fixups|];
    }
  }
}
