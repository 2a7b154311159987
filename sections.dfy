/**
 * The directives that choose where code goes: the sections (.text, .data,
 * .bss, .abs), the processor (.gpu, .dsp, .68000), the RISC origin
 * (.org), the RISC register bank (.regbank0, .regbank1), and the handler
 * for directives the assembler does not implement.
 */
module SectionDirectives {
  import opened Machine
  import opened Attrs
  import opened Tokens
  import opened Symbols
  import opened TokenClass
  import opened State
  import opened Parser
  import opened ExprEntry
  import opened AbsExpression

  /** The section flag agrees with the current section, as switchsect
      leaves it. */
  predicate SectOk(s: St) { s.sect.bss == BssLike(s.sect.cursect) }

  // ---------------------------------------------------------------------
  // .text, .data, .bss
  // ---------------------------------------------------------------------

  /** d_text, d_data, d_bss: refused in RISC mode; otherwise the current
      section is saved and the named one restored, unless it is current. */
  function ToSection(s: St, sec: Section): (r: (Status, St))
    ensures r.0 == ERROR <==> InRisc(s)
    ensures r.0 == ERROR ==> r.1 == Fail(s, ForbiddenInRisc)
    ensures r.0 == OK ==> r.1 == s.(sect := r.1.sect) && r.1.sect.cursect == sec
    ensures r.0 == OK && s.sect.cursect == sec ==> r.1 == s
    ensures r.0 == OK && s.sect.cursect != sec ==>
      && r.1.sect.bss == BssLike(sec)
      && r.1.sect.saved == s.sect.saved[s.sect.cursect := Saved(s.sect.sloc, s.sect.chunk)]
      && Saved(r.1.sect.sloc, r.1.sect.chunk) == SavedOf(s.sect.saved, sec)
  {
    if InRisc(s) then (ERROR, Fail(s, ForbiddenInRisc))
    else if s.sect.cursect != sec then (OK, SwitchSect(SaveSect(s), sec))
    else (OK, s)
  }

  method DSection(g: Ctx, sec: Section) returns (st: Status)
    modifies g
    ensures (st, g.Snap()) == ToSection(old(g.Snap()), sec)
  {
    if g.risc.rgpu || g.risc.rdsp {
      ReportError(g, ForbiddenInRisc);
      return ERROR;
    }
    if g.sect.cursect != sec {
      SavSect(g);
      SwitchSection(g, sec);
    }
    st := OK;
  }

  /** Leaving a section for another and coming back finds it as it was
      left: its location counter and its contents. */
  lemma {:induction false} SectionRoundTrip(s: St, other: Section)
    requires !InRisc(s) && SectOk(s) && s.sect.cursect != other
    ensures var t := ToSection(ToSection(s, other).1, s.sect.cursect);
      && t.0 == OK
      && t.1.sect.cursect == s.sect.cursect && t.1.sect.bss == s.sect.bss
      && t.1.sect.sloc == s.sect.sloc && t.1.sect.chunk == s.sect.chunk
      && t.1.risc == s.risc && t.1.diags == s.diags
  {
    var a := ToSection(s, other).1;
    assert a.sect.saved[s.sect.cursect] == Saved(s.sect.sloc, s.sect.chunk);
    assert !InRisc(a) && a.sect.cursect != s.sect.cursect;
  }

  // ---------------------------------------------------------------------
  // .abs
  // ---------------------------------------------------------------------

  /** d_abs: the current section is saved; then ABS is entered with its
      counter at the expression's value (0 when there is none).  An
      expression abs_expr refuses leaves the section where it was. */
  function AbsSection(s: St): (r: (Status, St))
    ensures r.0 == OK
    ensures s.sect.cursect in r.1.sect.saved && r.1.sect.saved[s.sect.cursect] == Saved(s.sect.sloc, s.sect.chunk)
    ensures r.1.risc == s.risc && r.1.fixups == s.fixups && r.1.marks == s.marks
    ensures PeekCode(s) == EOL ==> r.1.sect.cursect == SAbs && r.1.sect.bss && r.1.sect.sloc == 0
    ensures PeekCode(s) != EOL ==> var a := AbsExpr(SaveSect(s));
      && (a.0 == OK ==> r.1.sect.cursect == SAbs && r.1.sect.bss && r.1.sect.sloc == a.1)
      && (a.0 != OK ==> r.1 == a.2 && r.1.sect.cursect == s.sect.cursect && r.1.sect.sloc == s.sect.sloc)
  {
    var s1 := SaveSect(s);
    if PeekCode(s1) == EOL then
      var t := SwitchSect(s1, SAbs);
      (OK, t.(sect := t.sect.(sloc := 0)))
    else
      var a := AbsExpr(s1);
      if a.0 != OK then (OK, a.2)
      else
        var t := SwitchSect(a.2, SAbs);
        (OK, t.(sect := t.sect.(sloc := a.1)))
  }

  method DAbs(g: Ctx) returns (st: Status)
    requires g.Ready()
    modifies g
    ensures (st, g.Snap()) == AbsSection(old(g.Snap()))
  {
    SavSect(g);
    var v: Word := 0;
    if CodeOf(g.Cur()) != EOL {
      var ok;
      ok, v := AbsExprOf(g);
      if ok != OK {
        return OK;
      }
    }
    SwitchSection(g, SAbs);
    g.sect := g.sect.(sloc := v);
    st := OK;
  }

  /** `.abs n` with a literal n starts ABS at n. */
  lemma AbsAtLiteral(s: St)
    requires Peek(s).Const? && Class(PeekCode(Next(s))) < UNARY
    ensures AbsSection(s).1.sect.cursect == SAbs && AbsSection(s).1.sect.sloc == Peek(s).v
  {
    LiteralIsAbsolute(SaveSect(s));
  }

  // ---------------------------------------------------------------------
  // .gpu, .dsp, .68000
  // ---------------------------------------------------------------------

  /** d_gpu (dsp false) and d_dsp (dsp true): allowed only in TEXT or DATA.
      Entering a processor that was not already selected ends any .org;
      the other processor is deselected and no bank is active. */
  function RiscMode(s: St, dsp: bool): (r: (Status, St))
    ensures r.0 == ERROR <==> s.sect.cursect !in {SText, SData}
    ensures r.0 == ERROR ==> r.1 == Fail(s, if dsp then DspSection else GpuSection)
    ensures r.0 == OK ==> r.1 == s.(risc := r.1.risc)
    ensures r.0 == OK ==> r.1.risc.rgpu == !dsp && r.1.risc.rdsp == dsp && r.1.risc.regbank == BankNone
    ensures r.0 == OK ==> r.1.risc.altbankok == s.risc.altbankok && r.1.risc.riscImm == s.risc.riscImm
    ensures r.0 == OK ==> r.1.risc.orgaddr == s.risc.orgaddr
    ensures r.0 == OK ==>
      if (if dsp then s.risc.rdsp else s.risc.rgpu)
      then r.1.risc.orgactive == s.risc.orgactive && r.1.risc.orgwarning == s.risc.orgwarning
      else !r.1.risc.orgactive && !r.1.risc.orgwarning
  {
    if s.sect.cursect != SText && s.sect.cursect != SData then
      (ERROR, Fail(s, if dsp then DspSection else GpuSection))
    else
      var rs := s.risc;
      var was := if dsp then rs.rdsp else rs.rgpu;
      var rs1 := if !was then rs.(orgactive := false, orgwarning := false) else rs;
      (OK, s.(risc := rs1.(rgpu := !dsp, rdsp := dsp, regbank := BankNone)))
  }

  method DRiscMode(g: Ctx, dsp: bool) returns (st: Status)
    modifies g
    ensures (st, g.Snap()) == RiscMode(old(g.Snap()), dsp)
  {
    if g.sect.cursect != SText && g.sect.cursect != SData {
      ReportError(g, if dsp then DspSection else GpuSection);
      return ERROR;
    }
    var was := if dsp then g.risc.rdsp else g.risc.rgpu;
    if !was {
      g.risc := g.risc.(orgactive := false, orgwarning := false);
    }
    g.risc := g.risc.(rgpu := !dsp, rdsp := dsp, regbank := BankNone);
    st := OK;
  }

  /** Selecting the same processor twice is the same as selecting it once. */
  lemma {:induction false} RiscModeIdempotent(s: St, dsp: bool)
    requires RiscMode(s, dsp).0 == OK
    ensures RiscMode(RiscMode(s, dsp).1, dsp) == RiscMode(s, dsp)
  {
    var t := RiscMode(s, dsp).1;
    assert t.sect == s.sect;
    assert t.risc.rgpu == !dsp && t.risc.rdsp == dsp;
  }

  /** d_68000: back to the 68000 and the TEXT section; any .org ends. */
  function Back68000(s: St): (r: St)
    ensures !InRisc(r) && !r.risc.orgactive && !r.risc.orgwarning
    ensures r.sect.cursect == SText && !r.sect.bss
    ensures s.sect.cursect in r.sect.saved && r.sect.saved[s.sect.cursect] == Saved(s.sect.sloc, s.sect.chunk)
    ensures r.risc.regbank == s.risc.regbank && r.risc.orgaddr == s.risc.orgaddr
    ensures r == s.(risc := r.risc, sect := r.sect)
  {
    var rs := s.risc.(rgpu := false, rdsp := false, orgactive := false, orgwarning := false);
    SwitchSect(SaveSect(s.(risc := rs)), SText)
  }

  method D68000(g: Ctx) returns (st: Status)
    modifies g
    ensures st == OK && g.Snap() == Back68000(old(g.Snap()))
  {
    g.risc := g.risc.(rgpu := false, rdsp := false);
    g.risc := g.risc.(orgactive := false, orgwarning := false);
    SavSect(g);
    SwitchSection(g, SText);
    st := OK;
  }

  /** After .68000 the section directives are allowed again and .org is
      refused; after .gpu or .dsp it is the other way round. */
  lemma ModesGateDirectives(s: St, sec: Section, dsp: bool)
    ensures ToSection(Back68000(s), sec).0 == OK
    ensures Origin(Back68000(s)).0 == ERROR
    ensures RiscMode(s, dsp).0 == OK ==> ToSection(RiscMode(s, dsp).1, sec).0 == ERROR
  {
  }

  // ---------------------------------------------------------------------
  // .org
  // ---------------------------------------------------------------------

  /** d_org: GPU/DSP only.  The org'd address is cleared, then set to the
      expression's value and made active; an expression abs_expr refuses
      is reported again, and leaves the address cleared. */
  function Origin(s: St): (r: (Status, St))
    ensures !InRisc(s) ==> r == (ERROR, Fail(s, OrgNotRisc))
    ensures InRisc(s) ==> var a := AbsExpr(s.(risc := s.risc.(orgaddr := 0)));
      && (r.0 == OK <==> a.0 == OK)
      && (a.0 == OK ==> r.1.risc == a.2.risc.(orgactive := true, orgaddr := a.1))
      && (a.0 != OK ==> r.1 == Fail(a.2, OrgUndetermined) && r.1.risc.orgaddr == 0)
    ensures r.1.sect == s.sect
  {
    if !InRisc(s) then (ERROR, Fail(s, OrgNotRisc))
    else
      var s1 := s.(risc := s.risc.(orgaddr := 0));
      var a := AbsExpr(s1);
      if a.0 != OK then (ERROR, Fail(a.2, OrgUndetermined))
      else (OK, a.2.(risc := a.2.risc.(orgaddr := a.1, orgactive := true)))
  }

  method DOrg(g: Ctx) returns (st: Status)
    requires g.Ready()
    modifies g
    ensures (st, g.Snap()) == Origin(old(g.Snap()))
  {
    if !g.risc.rgpu && !g.risc.rdsp {
      ReportError(g, OrgNotRisc);
      return ERROR;
    }
    g.risc := g.risc.(orgaddr := 0);
    var ok, address := AbsExprOf(g);
    if ok == ERROR {
      ReportError(g, OrgUndetermined);
      return ERROR;
    }
    g.risc := g.risc.(orgaddr := address, orgactive := true);
    st := OK;
  }

  /** `.org n` with a literal n in RISC mode makes n the active org'd
      address. */
  lemma {:induction false} OrgLiteral(s: St)
    requires InRisc(s) && Peek(s).Const? && Class(PeekCode(Next(s))) < UNARY
    ensures Origin(s).0 == OK && Origin(s).1.risc.orgactive && Origin(s).1.risc.orgaddr == Peek(s).v
  {
    var s1 := s.(risc := s.risc.(orgaddr := 0));
    assert Peek(s1) == Peek(s) && PeekCode(Next(s1)) == PeekCode(Next(s));
    LiteralIsAbsolute(s1);
  }

  /** After `.org n`, every byte deposited moves `*` on by one: it reads
      n plus the number of bytes, as a 32-bit word. */
  lemma {:induction false} OrgThenStar(s: St, bytes: seq<Byte>)
    requires InRisc(s) && Peek(s).Const? && Class(PeekCode(Next(s))) < UNARY
    ensures StarValue(DepositBytes(Origin(s).1, bytes)) == (Peek(s).v + |bytes|) % TWO32
  {
    OrgLiteral(s);
    StarAfterDeposit(Origin(s).1, bytes);
  }

  lemma StarAfterDeposit(t: St, bytes: seq<Byte>)
    requires t.risc.orgactive
    ensures StarValue(DepositBytes(t, bytes)) == (t.risc.orgaddr + |bytes|) % TWO32
  {
  }

  // ---------------------------------------------------------------------
  // .regbank0, .regbank1
  // ---------------------------------------------------------------------

  /** d_regbank0 and d_regbank1: make a bank the active one. */
  function RegBank(s: St, b: Bank): (r: St)
    ensures r.risc.regbank == b && r == s.(risc := s.risc.(regbank := b))
  {
    s.(risc := s.risc.(regbank := b))
  }

  method DRegbank(g: Ctx, b: Bank) returns (st: Status)
    modifies g
    ensures st == OK && g.Snap() == RegBank(old(g.Snap()), b)
  {
    g.risc := g.risc.(regbank := b);
    st := OK;
  }

  /** After .regbank0, a register equated in bank 1 draws the bank warning
      (unless the other bank has been allowed) and one of bank 0 does not;
      likewise for .regbank1.  With no bank active (after .gpu or .dsp)
      no register does. */
  lemma BankSelectsWarnings(s: St, e: set<ExtFlag>)
    requires EquatedReg in e && !s.risc.altbankok
    ensures WrongBank(RegBank(s, BankZero).risc, e) <==> InBank1 in e
    ensures WrongBank(RegBank(s, BankOne).risc, e) <==> InBank0 in e
    ensures !WrongBank(RegBank(s, BankNone).risc, e)
  {
  }

  // ---------------------------------------------------------------------
  // Unimplemented directives
  // ---------------------------------------------------------------------

  /** d_unimpl: every directive that is recognised but not implemented
      reports so and fails. */
  function Unimplemented(s: St): (r: (Status, St))
    ensures r.0 == ERROR && r.1.diags == s.diags + [Error(Msg.Unimplemented)]
    ensures r.1 == s.(diags := r.1.diags)
  {
    (ERROR, Fail(s, Msg.Unimplemented))
  }

  method DUnimpl(g: Ctx) returns (st: Status)
    modifies g
    ensures (st, g.Snap()) == Unimplemented(old(g.Snap()))
  {
    ReportError(g, Msg.Unimplemented);
    st := ERROR;
  }
}
