/**
 * The token stream the expression analyser reads and the postfix cells it
 * writes.  Single-word tokens carry their code; CONST/FCONST carry a
 * 64-bit payload and SYMBOL/STRING a string, as in the assembler's tagged
 * token cells.
 */
module Tokens {
  import opened Machine
  import opened Attrs

  /** A token code indexes the 256-entry token-class table. */
  type Code = c: int | 0 <= c < 256

  // Token codes.  The lexer's generated header assigns the numeric values;
  // EOL is 101.  The other values below are chosen here, pairwise distinct
  // and distinct from every ASCII operator character used.
  const EOL: Code := 101
  const CONST: Code := 102
  const FCONST: Code := 104
  const ACONST: Code := 105
  const STRING: Code := 106
  const SYMBOL: Code := 107
  const ENDEXPR: Code := 69
  const CR_DEFINED: Code := 112
  const CR_REFERENCED: Code := 113
  const CR_STREQ: Code := 118
  const CR_MACDEF: Code := 63
  const CR_DATE: Code := 100
  const CR_TIME: Code := 116
  const CR_ABSCOUNT: Code := 65
  const UNMINUS: Code := 117
  const SHL: Code := 115
  const SHR: Code := 114
  const LE: Code := 108
  const GE: Code := 103
  const NE: Code := 110
  const DOTB: Code := 66
  const DOTW: Code := 87
  const DOTL: Code := 76
  const KW_R0: Code := 128
  const KW_R31: Code := 159
  const KW_D0: Code := 160
  const KW_A7: Code := 175
  const KW_USP: Code := 176
  const KW_SSP: Code := 177
  const KW_PC: Code := 178
  const KW_SR: Code := 179
  const KW_CCR: Code := 180

  /** The code of an ASCII operator character. */
  function Ch(c: char): Code
    requires c as int < 128
  {
    c as int
  }

  /** A token of the statement being assembled.  The text of a SYMBOL or
      STRING token is the C `char` array of the line: each `char` of a
      name or text stands for one byte of it, with a code below 256, so a
      character outside ASCII appears as the several bytes of its
      encoding, one `char` each. */
  datatype Token =
    | Const(v: Word)          // CONST and its 64-bit value
    | FConst(bits: Word)      // FCONST and the bits of its double
    | Symbol(name: string)    // SYMBOL and its name
    | Str(text: string)       // STRING and its text
    | Op(code: Code)          // every single-word token

  function CodeOf(t: Token): Code
  {
    match t
    case Const(_) => CONST
    case FConst(_) => FCONST
    case Symbol(_) => SYMBOL
    case Str(_) => STRING
    case Op(c) => c
  }

  /** Number of 32-bit words the token occupies in the token buffer. */
  function Words(t: Token): (n: nat)
    ensures 1 <= n <= 3
  {
    match t
    case Const(_) => 3
    case FConst(_) => 3
    case Symbol(_) => 2
    case Str(_) => 2
    case Op(_) => 1
  }

  predicate IsRegister(c: int) { KW_R0 <= c <= KW_R31 }

  /** A cell of the postfix expression buffer (exprbuf). */
  datatype Cell =
    | CConst(v: Word)               // CONST value
    | CFConst(bits: Word)           // FCONST double
    | CSym(idx: nat)                // SYMBOL and its index into symbolPtr
    | CAConst(v: Word, attr: Attr)  // ACONST value and attribute word
    | COp(code: Code)               // an operator token
    | CEnd                          // ENDEXPR
}
