/**
 * Attribute bits carried by symbols and expression values, the sections
 * of the object being assembled, and the RISC register banks.
 */
module Attrs {

  /** One bit of a symbol's or an expression value's attribute word
      (sattr). TEXT/DATA/BSS double as section numbers; an attribute word
      without any of them is ABS. */
  datatype Flag = Text | Data | Bss | Defined | Global | Common | Referenced | Equated | SDeclList | Float

  /** An attribute word, as the set of its bits. */
  type Attr = set<Flag>

  /** ABS is the absence of a section bit (section number 0). */
  const ABS: Attr := {}

  /** The three relocatable section bits, TEXT|DATA|BSS. */
  const TDB: Attr := {Text, Data, Bss}

  /** The section bits of an attribute word (attr & TDB). */
  function Tdb(a: Attr): Attr { a * TDB }

  /** One bit of a symbol's extended attribute word (sattre). */
  datatype ExtFlag = EquatedReg | EquatedCC | UndefEqur | UndefCC | InBank0 | InBank1

  /** The sections a directive can switch to. */
  datatype Section = SAbs | SText | SData | SBss

  /** The attribute bits of a section (the section number itself). */
  function SectAttr(s: Section): (a: Attr)
    ensures a <= TDB && |a| <= 1
    ensures a == {} <==> s == SAbs
  {
    match s
    case SAbs => {}
    case SText => {Text}
    case SData => {Data}
    case SBss => {Bss}
  }

  /** Sections whose attribute word carries SBSS: no bytes are stored for
      them, only the location counter moves. */
  predicate BssLike(s: Section) { s == SBss || s == SAbs }

  /** The active RISC register bank. */
  datatype Bank = BankZero | BankOne | BankNone

  /** The integer sizes a directive suffix can select. */
  datatype Size = SizB | SizW | SizL | SizN

  /** The numeric size code, which `.ds` multiplies by. */
  function SizeCode(s: Size): (n: nat)
    ensures 1 <= n <= 8
  {
    match s
    case SizB => 1
    case SizW => 2
    case SizL => 4
    case SizN => 8
  }
}
