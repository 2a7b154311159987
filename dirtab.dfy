/**
 * The directive table: the handler the statement processor calls for a
 * directive number, and the dispatch through it.  Handlers that read
 * files, print, or drive the input stack and the listing are outside the
 * model; every other entry runs the modelled directive.
 */
module Directives {
  import opened Machine
  import opened Attrs
  import opened State
  import Alignment
  import Padding
  import SectionDirectives
  import DataDirectives
  import SymbolDirectives
  import Layouts

  /** The alignments of .long, .phrase, .dphrase and .qphrase. */
  datatype Boundary = Long | Phrase | DPhrase | QPhrase

  /** The number of bytes of an alignment. */
  function Bytes(u: Boundary): (n: nat)
    ensures Padding.Unit(n)
  {
    match u
    case Long => 4
    case Phrase => 8
    case DPhrase => 16
    case QPhrase => 32
  }

  /** Handlers that move or align the location counter or switch mode. */
  datatype SectionDir =
    | Org | EvenUp | Unimpl | Back68000 | Switch(sec: Section) | AbsSect
    | RiscMode(dsp: bool) | Regbank(bank: Bank) | Align(unit: Boundary, save: bool) | Noclear

  /** Handlers that deposit or reserve data. */
  datatype DataDir = InitData | DefConst | DefSpace | DefBlock

  /** Handlers that change symbols or check expressions. */
  datatype SymbolDir = Comm | Undmac | Globl | AssertAll | Equrundef | Ccundef

  /** Handlers of file and listing I/O, printing and the input stack. */
  datatype IoDir = Goto | Incbin | Include | Fpop | ExitMacro | List | Nlist | Title | Subttl | Eject | PrintOut

  /** The handlers of the table, by kind. */
  datatype Handler =
    | SectionOp(sop: SectionDir) | DataOp(dop: DataDir) | SymbolOp(yop: SymbolDir)
    | LayoutOp(kind: Layouts.Kind) | IoOp(iop: IoDir)

  /** The table: the handler of each directive number (the directive's
      name in the comment); numbers past the table have none. */
  function Dirtab(code: nat): (r: Option<Handler>)
    ensures r.Some? <==> code < 54
  {
    match code
    case 0 => Some(SectionOp(Org))                     // org
    case 1 => Some(SectionOp(EvenUp))                  // even
    case 2 => Some(SectionOp(Unimpl))                  // .6502
    case 3 => Some(SectionOp(Back68000))               // .68000
    case 4 => Some(SectionOp(Switch(SBss)))            // bss
    case 5 => Some(SectionOp(Switch(SData)))           // data
    case 6 => Some(SectionOp(Switch(SText)))           // text
    case 7 => Some(SectionOp(AbsSect))                 // abs
    case 8 => Some(SymbolOp(Comm))                     // comm
    case 9 => Some(DataOp(InitData))                   // init
    case 10 => Some(LayoutOp(Layouts.CArgs))           // cargs
    case 11 => Some(IoOp(Goto))                        // goto
    case 12 => Some(DataOp(DefConst))                  // dc
    case 13 => Some(DataOp(DefSpace))                  // ds
    case 14 => Some(SymbolOp(Undmac))                  // undefmac
    case 15 => Some(SectionOp(RiscMode(false)))        // .gpu
    case 16 => Some(SectionOp(RiscMode(true)))         // .dsp
    case 17 => Some(DataOp(DefBlock))                  // dcb
    case 18 => Some(SectionOp(Unimpl))                 // set
    case 19 => Some(SectionOp(Unimpl))                 // reg
    case 20 => Some(SectionOp(Unimpl))                 // dump
    case 21 => Some(IoOp(Incbin))                      // .incbin
    case 22 => Some(SectionOp(Unimpl))                 // disable
    case 23 => Some(SectionOp(Unimpl))                 // enable
    case 24 => Some(SymbolOp(Globl))                   // globl
    case 25 => Some(SectionOp(Regbank(BankZero)))      // .regbank0
    case 26 => Some(SectionOp(Regbank(BankOne)))       // .regbank1
    case 27 => Some(SectionOp(Unimpl))                 // xdef
    case 28 => Some(SymbolOp(AssertAll))               // assert
    case 29 => Some(SectionOp(Unimpl))                 // if
    case 30 => Some(SectionOp(Unimpl))                 // endif
    case 31 => Some(SectionOp(Unimpl))                 // endc
    case 32 => Some(SectionOp(Unimpl))                 // iif
    case 33 => Some(IoOp(Include))                     // include
    case 34 => Some(IoOp(Fpop))                        // end
    case 35 => Some(SectionOp(Unimpl))                 // macro
    case 36 => Some(IoOp(ExitMacro))                   // exitm
    case 37 => Some(SectionOp(Unimpl))                 // endm
    case 38 => Some(IoOp(List))                        // list
    case 39 => Some(IoOp(Nlist))                       // nlist
    case 40 => Some(SectionOp(Align(Long, false)))     // long
    case 41 => Some(SectionOp(Align(Phrase, false)))   // phrase
    case 42 => Some(SectionOp(Align(DPhrase, false)))  // dphrase
    case 43 => Some(SectionOp(Align(QPhrase, true)))   // qphrase
    case 44 => Some(IoOp(Title))                       // title
    case 45 => Some(IoOp(Subttl))                      // subttl
    case 46 => Some(IoOp(Eject))                       // eject
    case 47 => Some(SectionOp(Unimpl))                 // error
    case 48 => Some(SectionOp(Unimpl))                 // warn
    case 49 => Some(SectionOp(Noclear))                // .noclear
    case 50 => Some(SymbolOp(Equrundef))               // .equrundef
    case 51 => Some(SymbolOp(Ccundef))                 // .ccundef
    case 52 => Some(IoOp(PrintOut))                    // .print
    case 53 => Some(LayoutOp(Layouts.CStruct))         // .cstruct
    case _ => None
  }

  /** The directive numbers that only report "unimplemented directive". */
  const UnimplCodes: set<nat> := {2, 18, 19, 20, 22, 23, 27, 29, 30, 31, 32, 35, 37, 47, 48}

  /** The directive numbers of handlers outside the model. */
  const ExternalCodes: set<nat> := {11, 21, 33, 34, 36, 38, 39, 44, 45, 46, 52}

  function RunSection(op: SectionDir, s: St): (r: (Status, St))
    ensures op == Noclear ==> r == (OK, s)
    ensures op == Unimpl ==> r.0 == ERROR && r.1 == s.(diags := s.diags + [Error(Msg.Unimplemented)])
    ensures op.Align? ==> r.0 == OK && r.1.sect.sloc % Bytes(op.unit) == 0
  {
    match op
    case Org => SectionDirectives.Origin(s)
    case EvenUp => (OK, Alignment.Even(s))
    case Unimpl => SectionDirectives.Unimplemented(s)
    case Back68000 => (OK, SectionDirectives.Back68000(s))
    case Switch(sec) => SectionDirectives.ToSection(s, sec)
    case AbsSect => SectionDirectives.AbsSection(s)
    case RiscMode(dsp) => SectionDirectives.RiscMode(s, dsp)
    case Regbank(b) => (OK, SectionDirectives.RegBank(s, b))
    case Align(u, save) => (OK, Alignment.AlignTo(s, Bytes(u), save))
    case Noclear => (OK, s)
  }

  function RunData(op: DataDir, s: St, siz: Size): (r: (Status, St))
  {
    match op
    case InitData => DataDirectives.Init(s, siz)
    case DefConst => DataDirectives.Dc(s, siz)
    case DefSpace => DataDirectives.Ds(s, siz)
    case DefBlock => DataDirectives.Dcb(s, siz)
  }

  function RunSymbol(op: SymbolDir, s: St): (r: (Status, St))
  {
    match op
    case Comm => SymbolDirectives.Comm(s)
    case Undmac => (OK, SymbolDirectives.SymList(s, SymbolDirectives.UndefineMacro).1)
    case Globl => (OK, SymbolDirectives.SymList(s, SymbolDirectives.MakeGlobal).1)
    case AssertAll => SymbolDirectives.AssertList(s)
    case Equrundef => SymbolDirectives.EqurUndef(s)
    case Ccundef => SymbolDirectives.CcUndef(s)
  }

  /** What a handler does to the state, for the modelled ones; `siz` is the
      size suffix of the statement and `regs` the register-list reader. */
  function Run(h: Handler, s: St, siz: Size, regs: Layouts.RegListFn): (r: Option<(Status, St)>)
    ensures r.None? <==> h.IoOp?
  {
    match h
    case SectionOp(op) => Some(RunSection(op, s))
    case DataOp(op) => Some(RunData(op, s, siz))
    case SymbolOp(op) => Some(RunSymbol(op, s))
    case LayoutOp(kind) => Some(Layouts.Layout(kind, regs, s))
    case IoOp(_) => None
  }

  method DispatchSection(g: Ctx, op: SectionDir) returns (st: Status)
    requires g.Ready()
    modifies g
    ensures (st, g.Snap()) == RunSection(op, old(g.Snap()))
  {
    match op {
      case Org => st := SectionDirectives.DOrg(g);
      case EvenUp => st := Alignment.DEven(g);
      case Unimpl => st := SectionDirectives.DUnimpl(g);
      case Back68000 => st := SectionDirectives.D68000(g);
      case Switch(sec) => st := SectionDirectives.DSection(g, sec);
      case AbsSect => st := SectionDirectives.DAbs(g);
      case RiscMode(dsp) => st := SectionDirectives.DRiscMode(g, dsp);
      case Regbank(b) => st := SectionDirectives.DRegbank(g, b);
      case Align(u, save) => st := Alignment.DAlign(g, Bytes(u), save);
      case Noclear => st := OK;
    }
  }

  method DispatchData(g: Ctx, op: DataDir, siz: Size) returns (st: Status)
    requires g.Ready()
    modifies g
    ensures (st, g.Snap()) == RunData(op, old(g.Snap()), siz)
  {
    match op {
      case InitData => st := DataDirectives.DInit(g, siz);
      case DefConst => st := DataDirectives.DDc(g, siz);
      case DefSpace => st := DataDirectives.DDs(g, siz);
      case DefBlock => st := DataDirectives.DDcb(g, siz);
    }
  }

  method DispatchSymbol(g: Ctx, op: SymbolDir) returns (st: Status)
    requires g.Ready()
    modifies g
    ensures (st, g.Snap()) == RunSymbol(op, old(g.Snap()))
  {
    match op {
      case Comm => st := SymbolDirectives.DComm(g);
      case Undmac => st := SymbolDirectives.DUndmac(g);
      case Globl => st := SymbolDirectives.DGlobl(g);
      case AssertAll => st := SymbolDirectives.DAssert(g);
      case Equrundef => st := SymbolDirectives.DEqurundef(g);
      case Ccundef => st := SymbolDirectives.DCcundef(g);
    }
  }

  /** The statement processor's call `(*dirtab[code])()`: runs the handler
      of a modelled directive, and reports an external one untouched. */
  method Dispatch(g: Ctx, code: nat, siz: Size, regs: Layouts.RegListFn) returns (ran: bool, st: Status)
    requires g.Ready() && code < 54
    modifies g
    ensures var e := Run(Dirtab(code).value, old(g.Snap()), siz, regs);
      && (ran <==> e.Some?)
      && (e.None? ==> g.Snap() == old(g.Snap()))
      && (e.Some? ==> (st, g.Snap()) == e.value)
  {
    ran, st := true, OK;
    match Dirtab(code).value {
      case SectionOp(op) => st := DispatchSection(g, op);
      case DataOp(op) => st := DispatchData(g, op, siz);
      case SymbolOp(op) => st := DispatchSymbol(g, op);
      case LayoutOp(kind) => st := Layouts.DLayout(g, kind, regs);
      case IoOp(_) => ran := false;
    }
  }

  /** Fifteen numbers of the table are unimplemented directives, and
      only those report the error. */
  lemma UnimplementedEntries(code: nat)
    ensures Dirtab(code) == Some(SectionOp(Unimpl)) <==> code in UnimplCodes
  {
  }

  /** Eleven numbers lead outside the model; every other number of the
      table runs a modelled directive. */
  lemma ExternalEntries(code: nat)
    requires code < 54
    ensures Dirtab(code).value.IoOp? <==> code in ExternalCodes
  {
  }

  /** .long, .phrase, .dphrase and .qphrase align to 4, 8, 16 and 32
      bytes, and only .qphrase saves the section first. */
  lemma AlignEntries()
    ensures Dirtab(40) == Some(SectionOp(Align(Long, false))) && Bytes(Long) == 4
    ensures Dirtab(41) == Some(SectionOp(Align(Phrase, false))) && Bytes(Phrase) == 8
    ensures Dirtab(42) == Some(SectionOp(Align(DPhrase, false))) && Bytes(DPhrase) == 16
    ensures Dirtab(43) == Some(SectionOp(Align(QPhrase, true))) && Bytes(QPhrase) == 32
  {
  }
}
