/**
 * The assembler state the expression analyser and the directive handlers
 * read and update: the token cursor, the postfix buffer, the symbol table,
 * the current section and its location counter, the RISC mode flags, and
 * the logs of fixups, relocation marks and diagnostics.
 *
 * `St` is a snapshot of that state as a value; `Ctx` holds the same state
 * in fields that the handlers update in place.  Each collaborator the
 * handlers call (error, D_byte, fixup, savsect, ...) is given here as a
 * function on snapshots and a method on the context that is proved to
 * agree with it.
 */
module State {
  import opened Machine
  import opened Attrs
  import opened Tokens
  import opened Symbols
  import TokenClass

  type Byte = b: int | 0 <= b < 256

  /** The saved location counter and contents of a section (savsect). */
  datatype Saved = Saved(sloc: nat, chunk: seq<Byte>)

  datatype FixKind = FuByteSext | FuWordSext | FuLong | FuLongMovei

  /** A fixup: the expression at `loc` must be evaluated again later. */
  datatype Fixup = Fixup(kind: FixKind, sect: Section, loc: nat, expr: seq<Cell>)

  datatype MarkWidth = MWord | MLong

  /** A relocation mark: the value at `loc` is relative to section `tdb`. */
  datatype Mark = Mark(sect: Section, loc: nat, tdb: Attr, width: MarkWidth)

  /** Diagnostic texts. */
  datatype Msg =
    // expression analyser
    | MissingSymbol | MissingSymbolOrString | MissingComma
    | MissingParen | MissingBracket | MissingColon | MissingBrace | BadExpression
    | UndefRiscRegister | UndefRegEquate(name: string)
    | BankConflict0(name: string) | BankConflict1(name: string)
    | SegError | FloatNotAllowed(op: Code) | FloatCompare | FloatEquality
    | DivideByZero | ModByZero | BadOperator
    // points where the C code's behaviour is undefined
    | ShiftTooWide | StackUnderflow | NegOverflow | DanglingSymbol | DivOverflow
    // directives
    | UndefError | RelError | OrgNotRisc | OrgUndetermined | CcundefNotRisc
    | SyntaxError | InvalidCcName | EqurundefNotRisc | Unimplemented
    | SymbolListSyntax | AssertUndefined | AssertFailure | GloblLocal
    | ForbiddenInRisc | DsOnlyInBss | IllegalInit | NonAbsByte | RangeError
    | InitInBss | LocGlError | CommDefined | GpuSection | DspSection
    | MultiplyDefined(name: string) | CargsSyntax | CstructSuffix | CstructSyntax
    | ExpectedEol

  /** A reported diagnostic.  `Undefined` marks a point where the C code's
      behaviour is undefined; the model stops the operation there. */
  datatype Diag = Error(m: Msg) | Warning(m: Msg) | Undefined(m: Msg) | Fatal(m: Msg)

  /** Outcome of a directive handler or an expression (OK or ERROR). */
  datatype Status = OK | ERROR

  /** The host's IEEE double arithmetic on 64-bit patterns: given an
      operator, the two stacked values and whether each is a double, the
      value the operator leaves on the stack.  Floating point is not part
      of this model; the evaluator's float branches call this instead. */
  type FloatOps = (Code, Word, Word, bool, bool) -> Word

  /** The current section: its number, whether its attribute word has
      SBSS (BSS and ABS: nothing is stored, only the counter moves), the
      location counter, the bytes deposited so far, the saved state of the
      other sections (sect[]), and just_bss, set when .ds reserved space
      without depositing. */
  datatype Sect = Sect(cursect: Section, bss: bool, sloc: nat, chunk: seq<Byte>,
                       saved: map<Section, Saved>, justBss: bool)

  /** The RISC (GPU/DSP) mode: which processor is being assembled for, the
      active register bank, whether the other bank may be used, whether a
      `#` immediate was seen on the line, and the .org state. */
  datatype Risc = Risc(rgpu: bool, rdsp: bool, regbank: Bank, altbankok: bool,
                       riscImm: bool, orgactive: bool, orgaddr: nat, orgwarning: bool)

  /** What the handlers read about the statement being assembled and the
      run: the local-label environment, the location at the start of the
      line (pcloc), the label defined on the line (lab_sym), the Alcyon
      compatibility flag, dos_time()/dos_date() of this run, and the
      host's floating point. */
  datatype Line = Line(curenv: int, pcloc: nat, labSym: Option<SymKey>, as68: bool,
                       time: Word, date: Word, fpu: FloatOps)

  /** A snapshot of the assembler state. */
  datatype St = St(
    toks: seq<Token>, tok: nat,            // the statement's tokens and the cursor
    buf: seq<Cell>, symptr: seq<SymKey>,   // exprbuf and symbolPtr[0..symbolNum)
    symtab: SymTab, decls: seq<SymKey>,    // symbols and their order of definition
    sect: Sect, risc: Risc, line: Line,
    fixups: seq<Fixup>, marks: seq<Mark>, diags: seq<Diag>)

  // ---------------------------------------------------------------------
  // Collaborators, on snapshots
  // ---------------------------------------------------------------------

  /** The token at the cursor; the lexer ends every statement with EOL, and
      reading past the end is read as EOL. */
  function Peek(s: St): Token
  {
    if s.tok < |s.toks| then s.toks[s.tok] else Op(EOL)
  }

  function PeekCode(s: St): Code { CodeOf(Peek(s)) }

  /** Number of tokens left before the end of the statement. */
  function Remaining(s: St): nat
  {
    if s.tok < |s.toks| then |s.toks| - s.tok else 0
  }

  /** Consumes the token at the cursor (none past the end). */
  function Next(s: St): (r: St)
    ensures Remaining(r) == if Remaining(s) > 0 then Remaining(s) - 1 else 0
  {
    if s.tok < |s.toks| then s.(tok := s.tok + 1) else s
  }

  /** What the expression analyser leaves alone: the statement's tokens,
      the sections, the RISC mode, the line, the order of declarations and
      the fixup and mark logs; it adds symbols but removes none. */
  ghost predicate Kept(s: St, t: St)
  {
    && t == s.(tok := t.tok, buf := t.buf, symptr := t.symptr, symtab := t.symtab, diags := t.diags)
    && s.symtab.Keys <= t.symtab.Keys
  }

  /** In GPU or DSP mode (rgpu || rdsp). */
  predicate InRisc(s: St) { s.risc.rgpu || s.risc.rdsp }

  /** error(): reports a diagnostic. */
  function Fail(s: St, m: Msg): St { s.(diags := s.diags + [Error(m)]) }

  /** warn(). */
  function Warn(s: St, m: Msg): St { s.(diags := s.diags + [Warning(m)]) }

  /** The big-endian bytes of the low n bytes of a value. */
  function BigEndian(v: int, n: nat): (r: seq<Byte>)
    ensures |r| == n
    decreases n
  {
    if n == 0 then [] else BigEndian(v / 256, n - 1) + [v % 256]
  }

  /** D_byte(), D_word(), D_long(): appends bytes to the current section and
      advances the location counter, and the org'd address with it when an
      org is active. */
  function DepositBytes(s: St, bytes: seq<Byte>): (r: St)
    ensures r.sect.sloc == s.sect.sloc + |bytes|
  {
    var sc := s.sect;
    var rs := s.risc;
    s.(sect := sc.(chunk := sc.chunk + bytes, sloc := sc.sloc + |bytes|),
       risc := if rs.orgactive then rs.(orgaddr := rs.orgaddr + |bytes|) else rs)
  }

  /** D_byte(): the low byte of the value. */
  function DepositByte(s: St, v: int): St { DepositBytes(s, [v % 256]) }

  /** D_word() and D_long(): big-endian, as on the 68000. */
  function DepositWord(s: St, v: int): St { DepositBytes(s, BigEndian(v, 2)) }
  function DepositLong(s: St, v: int): St { DepositBytes(s, BigEndian(v, 4)) }

  /** Advances the location counter without storing anything (BSS). */
  function Skip(s: St, n: nat): (r: St)
    ensures r.sect.sloc == s.sect.sloc + n
  {
    s.(sect := s.sect.(sloc := s.sect.sloc + n))
  }

  /** fixup(): records the postfix buffer against the current location. */
  function AddFixup(s: St, kind: FixKind): St
  {
    s.(fixups := s.fixups + [Fixup(kind, s.sect.cursect, s.sect.sloc, s.buf)])
  }

  /** rmark(): records a relocation mark at the current location. */
  function AddMark(s: St, tdb: Attr, width: MarkWidth): St
  {
    s.(marks := s.marks + [Mark(s.sect.cursect, s.sect.sloc, tdb, width)])
  }

  /** The saved state of a section; a section never entered is empty. */
  function SavedOf(saved: map<Section, Saved>, sec: Section): Saved
  {
    if sec in saved then saved[sec] else Saved(0, [])
  }

  /** savsect(): saves the current section's counter and contents. */
  function SaveSect(s: St): St
  {
    var sc := s.sect;
    s.(sect := sc.(saved := sc.saved[sc.cursect := Saved(sc.sloc, sc.chunk)]))
  }

  /** switchsect(): makes a section current, restoring its saved state. */
  function SwitchSect(s: St, sec: Section): (r: St)
    ensures r.sect.cursect == sec && r.sect.bss == BssLike(sec)
  {
    var sc := s.sect;
    var sv := SavedOf(sc.saved, sec);
    s.(sect := sc.(cursect := sec, bss := BssLike(sec), sloc := sv.sloc, chunk := sv.chunk))
  }

  /** at_eol(): complains unless the statement is used up. */
  function AtEol(s: St): St
  {
    if PeekCode(s) == EOL then s else Fail(s, ExpectedEol)
  }

  // ---------------------------------------------------------------------
  // The state held in place
  // ---------------------------------------------------------------------

  /** The assembler's globals, grouped by the subsystem that owns them. */
  class Ctx {
    var toks: seq<Token>
    var tok: nat
    var buf: seq<Cell>
    var symptr: seq<SymKey>
    var symtab: SymTab
    var decls: seq<SymKey>
    var sect: Sect
    var risc: Risc
    var line: Line
    var fixups: seq<Fixup>
    var marks: seq<Mark>
    var diags: seq<Diag>

    /** The token-class table, filled by InitExpression. */
    const tokenClass: array<int>

    function Snap(): St
      reads this
    {
      St(toks, tok, buf, symptr, symtab, decls, sect, risc, line, fixups, marks, diags)
    }

    /** The class table holds the class of every code. */
    predicate Ready()
      reads tokenClass
    {
      tokenClass.Length == 256 &&
      forall c :: 0 <= c < 256 ==> tokenClass[c] == TokenClass.Class(c)
    }

    /** A context holding the given snapshot, with an empty class table. */
    constructor (s: St)
      ensures Snap() == s && tokenClass.Length == 256 && fresh(tokenClass)
    {
      toks, tok, buf, symptr := s.toks, s.tok, s.buf, s.symptr;
      symtab, decls, sect, risc, line := s.symtab, s.decls, s.sect, s.risc, s.line;
      fixups, marks, diags := s.fixups, s.marks, s.diags;
      tokenClass := new int[256];
    }

    /** The token at the cursor. */
    function Cur(): (t: Token)
      reads this
      ensures t == Peek(Snap())
    {
      if tok < |toks| then toks[tok] else Op(EOL)
    }
  }

  // ---------------------------------------------------------------------
  // Collaborators, in place
  // ---------------------------------------------------------------------

  method Advance(g: Ctx)
    modifies g
    ensures g.Snap() == Next(old(g.Snap()))
  {
    if g.tok < |g.toks| {
      g.tok := g.tok + 1;
    }
  }

  method ReportError(g: Ctx, m: Msg)
    modifies g
    ensures g.Snap() == Fail(old(g.Snap()), m)
  {
    g.diags := g.diags + [Error(m)];
  }

  method ReportWarning(g: Ctx, m: Msg)
    modifies g
    ensures g.Snap() == Warn(old(g.Snap()), m)
  {
    g.diags := g.diags + [Warning(m)];
  }

  method DBytes(g: Ctx, bytes: seq<Byte>)
    modifies g
    ensures g.Snap() == DepositBytes(old(g.Snap()), bytes)
  {
    g.sect := g.sect.(chunk := g.sect.chunk + bytes, sloc := g.sect.sloc + |bytes|);
    if g.risc.orgactive {
      g.risc := g.risc.(orgaddr := g.risc.orgaddr + |bytes|);
    }
  }

  method DByte(g: Ctx, v: int)
    modifies g
    ensures g.Snap() == DepositByte(old(g.Snap()), v)
  {
    DBytes(g, [v % 256]);
  }

  method DWord(g: Ctx, v: int)
    modifies g
    ensures g.Snap() == DepositWord(old(g.Snap()), v)
  {
    DBytes(g, BigEndian(v, 2));
  }

  method DLong(g: Ctx, v: int)
    modifies g
    ensures g.Snap() == DepositLong(old(g.Snap()), v)
  {
    DBytes(g, BigEndian(v, 4));
  }

  method RecordFixup(g: Ctx, kind: FixKind)
    modifies g
    ensures g.Snap() == AddFixup(old(g.Snap()), kind)
  {
    g.fixups := g.fixups + [Fixup(kind, g.sect.cursect, g.sect.sloc, g.buf)];
  }

  method RecordMark(g: Ctx, tdb: Attr, width: MarkWidth)
    modifies g
    ensures g.Snap() == AddMark(old(g.Snap()), tdb, width)
  {
    g.marks := g.marks + [Mark(g.sect.cursect, g.sect.sloc, tdb, width)];
  }

  method SavSect(g: Ctx)
    modifies g
    ensures g.Snap() == SaveSect(old(g.Snap()))
  {
    g.sect := g.sect.(saved := g.sect.saved[g.sect.cursect := Saved(g.sect.sloc, g.sect.chunk)]);
  }

  method SwitchSection(g: Ctx, sec: Section)
    modifies g
    ensures g.Snap() == SwitchSect(old(g.Snap()), sec)
  {
    var sv := SavedOf(g.sect.saved, sec);
    g.sect := g.sect.(cursect := sec, bss := BssLike(sec), sloc := sv.sloc, chunk := sv.chunk);
  }

  method CheckEol(g: Ctx)
    modifies g
    ensures g.Snap() == AtEol(old(g.Snap()))
  {
    if CodeOf(g.Cur()) != EOL {
      ReportError(g, ExpectedEol);
    }
  }
}
