# RMAC expression analyser and directive handlers, in Dafny

This project models two parts of RMAC, the Atari Jaguar macro assembler
for the 68000, GPU and DSP.

The first part is the **expression analyser** (`expr.c`):
- the token-class table built by `InitExpression` from the list `itokcl`;
- `str_value`, which folds a string operand into a 32-bit constant;
- the recursive-descent parser (`expr0`, `expr1`, `expr2`), which turns
  the infix tokens of a statement into postfix code in the expression
  buffer;
- `expr()`, with its fast path for a lone register, constant, `*` or
  symbol;
- the stack evaluator `evexpr`, with its rules on section attributes
  (TEXT, DATA, BSS, ABS), the external symbol, and 64-bit wrap-around.

The second part is the **directive handlers** (`direct.c`):
- `abs_expr`;
- the section directives (`.text`, `.data`, `.bss`, `.abs`), the
  processor directives (`.gpu`, `.dsp`, `.68000`), `.org`, `.regbank0`
  and `.regbank1`;
- the alignments (`.even`, `.long`, `.phrase`, `.dphrase`, `.qphrase`)
  and `auto_even`;
- the data directives (`dc`, `dcb`, `.init`, `.ds`) and `dep_block`;
- the symbol directives (`symlist`, `.globl`, `.undefmac`, `.comm`,
  `.equrundef`, `.ccundef`, `.assert`);
- the structure-offset directives `.cargs` and `.cstruct`;
- `d_unimpl`;
- the directive table `dirtab`.

Both files work by changing global state step by step, and the model
keeps that form.

The state has two forms. `State.St` is a snapshot: a value holding:
- the statement's tokens and the cursor;
- the expression buffer and the symbol-pointer table;
- the symbol table and the order of declaration;
- the current section, its location counter and contents, and the saved
  sections;
- the RISC mode flags;
- the per-line data;
- the logs of fixups, relocation marks and diagnostics.

`State.Ctx` is a class holding the same state in fields, plus the
256-entry token-class table as an `array`.

Each operation comes as a pair:
- a function on snapshots (`Parse0`, `Evaluate`, `ToSection`,
  `DcItems`, ...), which states what the source computes;
- a method on the context (`Expr0`, `EvExpr`, `DSection`, `DDc`, ...),
  which runs the source's loops and updates in place.

Each method's `ensures` ties its outputs and the new state to the
function of the old state. The lemmas state what the assembler promises
about those functions:
- the fast path agrees with the general path;
- parsed code never makes the evaluator run short;
- leaving a section and coming back restores it;
- a block of `dcb` copies is all-or-nothing;
- `.cstruct` offsets are aligned;
- and more, listed in the table below.

Each diagnostic the source reports is an entry appended to the log
(`Error`, `Warning`, `Fatal`). Where the C code's behaviour is undefined,
the model stops the operation with an `Undefined` entry. These places
are:
- a shift of 64 or more;
- `INT_MIN / -1`;
- a divisor whose low 32 bits are zero, in the as-written `/`
  (`Operators.DivideAsWritten`);
- the unary minus of `INT_MIN`;
- a popped empty stack;
- a symbol reference past the symbol-pointer table.

The following are not part of the sources of this model, and each
appears as a function on snapshots with a method that agrees with it:
- `lookup`, `NewSymbol` and `sym_decl` (the symbol table);
- `D_byte`, `D_word`, `D_long`, `savsect` and `switchsect` (sections);
- `fixup` and `rmark`;
- `error`, `warn` and `at_eol`.

The register-list parser `reglist` is a function parameter. The host's
floating-point arithmetic is a parameter in the per-line data. So are
`dos_time` and `dos_date`.

## Model

| member | source | states |
|---|---|---|
| TokenClass.Class | expr.c:30-47 | every code gets a class between END and OR, read off itokcl with later groups taking precedence |
| TokenClass.TableAfter | expr.c:85-91 | the table after the loop has consumed a prefix of the list always has 256 entries |
| TokenClass.TablePrefix | expr.c:85-91 | the table depends only on the part of the list consumed so far |
| TokenClass.TableUntouched | expr.c:85-91 | an entry whose code does not occur in a stretch of the list is not changed while that stretch is consumed |
| TokenClass.AbsentIsEnd | expr.c:78-91 | a code absent from the consumed list keeps class END |
| TokenClass.ClassIsZerosBefore | expr.c:85-91 | a code's class is the number of 0 separators before its last occurrence in the list |
| TokenClass.JoinTable | expr.c:85-91 | for any list built from groups closed by 0, the table gives each code the number of the last group containing it |
| TokenClass.ItokClShape | expr.c:30-47 | itokcl ends with its only 1 at position 48, and everything before it is the twelve groups joined by 0 |
| TokenClass.StdTableIsClass | expr.c:78-95 | the table InitExpression builds holds Class of every code |
| TokenClass.GroupMembersClass | expr.c:30-47 | each member of the i-th group gets class i+1, the count of 0 separators before its group |
| TokenClass.UnlistedIsEnd | expr.c:78-91 | codes not in itokcl have class END |
| TokenClass.IdGroupClass | expr.c:32 | CONST, FCONST and SYMBOL are terminals (ID) |
| TokenClass.MultGroupClass | expr.c:40 | `*`, `/` and `%` share the class MULT |
| TokenClass.RelGroupClass | expr.c:43 | the six comparisons share the class REL |
| ExprInit.InitExpression | expr.c:78-95 | the class table equals the standard table, and the only other change is that the symbol-pointer table is emptied |
| ExprInit.FillClasses | expr.c:80-91 | the two loops leave the standard table in the array |
| ExprInit.ClearClasses | expr.c:80-81 | every entry is END after the first loop |
| ExprInit.WalkItokCl | expr.c:85-91 | the walk up to the terminating 1 leaves the table the list defines |
| ExprInit.StdTableClasses | expr.c:78-95 | every entry of the standard table is the class of its code |
| ExprInit.StrValue | expr.c:64-72 | the folded value fits in 32 bits |
| ExprInit.CText | expr.c:64-72 | the characters of a C string: the prefix before the first NUL, which holds no NUL |
| ExprInit.StrValueOf | expr.c:64-72 | the loop stops at the first NUL and computes StrValue of the characters before it |
| ExprInit.StrValueIsPackedMod | expr.c:64-72 | str_value is the big-endian number the characters' low bytes spell, modulo 2^32 |
| ExprInit.PackedAppend | expr.c:64-72 | packing a concatenation shifts the first part by the length of the second |
| ExprInit.StrValueKeepsLastFour | expr.c:64-72 | only the last four characters reach the result, and "" gives 0 |
| ExprInit.DropsPrefix | expr.c:64-72 | characters more than four places from the end do not change the value |
| Parser.Emit | expr.c:115 | appending to the buffer leaves the cursor where it was |
| Parser.BankCheck | expr.c:250-258 | a register equated in the bank that is not active draws the matching warning unless the other bank is allowed; nothing else changes |
| Parser.RefSym | expr.c:242-264 | a symbol operand is created when absent and gets the next symbol-pointer slot, and the buffer gains a reference to that slot |
| Parser.Expect | expr.c:273-274 | the token is consumed, and the step succeeds exactly when it is the expected one |
| Parser.Parse0 | expr.c:101-119 | expr0 consumes tokens, never adds any, and keeps the tokens, sections, mode and logs |
| Parser.Parse0Loop | expr.c:108-116 | the loop of expr0 never moves the cursor back, and keeps the tokens, sections, mode and logs |
| Parser.Parse0LoopUnfold | expr.c:108-116 | a round of the loop parses the right operand with expr1 and then emits the operator |
| Parser.Parse1 | expr.c:128-220 | expr1 never moves the cursor back, and keeps the tokens, sections, mode and logs |
| Parser.Special | expr.c:154-215 | a special unary operator emits exactly one constant on success and nothing on failure, and creates no symbol |
| Parser.StrEq | expr.c:194-213 | ^^streq emits the constant 0 or 1, and creates no symbol |
| Parser.SymQuery | expr.c:170-193 | ^^macdef, ^^defined and ^^referenced give 0 or 1 |
| Parser.Parse2 | expr.c:226-317 | expr2 never moves the cursor back, and keeps the tokens, sections, mode and logs |
| Parser.Parse2Group | expr.c:269-311 | a bracketed group never moves the cursor back, and keeps the tokens, sections, mode and logs |
| Parser.RefSymbol | expr.c:242-264 | the in-place symbol reference agrees with RefSym |
| Parser.ExpectToken | expr.c:273-274 | agrees with Expect |
| Parser.Expr0 | expr.c:101-119 | the in-place expr0 agrees with Parse0 |
| Parser.Expr1 | expr.c:128-220 | agrees with Parse1 |
| Parser.SpecialOperator | expr.c:154-215 | agrees with Special |
| Parser.StrEqOperands | expr.c:194-213 | agrees with StrEq |
| Parser.Expr2 | expr.c:226-317 | agrees with Parse2 |
| Parser.Group | expr.c:269-311 | agrees with Parse2Group |
| Parser.ClassOfEol | expr.c:108 | EOL has no class, so the loops of the parser stop at the end of a statement |
| ParserFacts.Depth | expr.c:101-317 | a stack depth is -1 once a cell runs short, and otherwise stays at or above 0 |
| ParserFacts.DepthAppend | expr.c:101-317 | running two pieces of code in turn is running their concatenation |
| ParserFacts.Parse0Sound | expr.c:101-119 | expr0 only appends, and on success it appends one operand whose symbol references are all resolved |
| ParserFacts.Parse0LoopSound | expr.c:108-116 | the loop appends the tail of a binary chain, which never lowers the depth |
| ParserFacts.Parse1Sound | expr.c:128-220 | expr1 appends one sound operand |
| ParserFacts.UnarySound | expr.c:139-153 | the operand, then the unary operator, is an operand |
| ParserFacts.SpecialSound | expr.c:154-215 | a special unary operator appends one sound operand |
| ParserFacts.Parse2Sound | expr.c:226-317 | expr2 appends one sound operand |
| ParserFacts.Parse2GroupSound | expr.c:269-311 | a bracketed group appends one sound operand |
| ParserFacts.OperandsThenOp | expr.c:108-116 | two operands followed by an operator make an operand |
| ParserExamples.ChainLoop | expr.c:108-116 | over `op1 v1 op2 v2 ... EOL`, the loop emits `v1 op1 v2 op2 ...`, so every binary operator associates to the left |
| ParserExamples.Chain | expr.c:101-119 | expr0 over a chain of constants and binary operators emits each operator right after its right operand |
| ParserExamples.NoPrecedence | expr.c:101-119 | `2+3*4` becomes `2 3 + 4 *`, because all binary operators share one precedence |
| ParserExamples.UnaryThenUnary | expr.c:139-144 | a unary operator right after another one is a bad expression, because the operand is parsed by expr2 |
| ParserExamples.ConstOperand | expr.c:234-237 | a constant is an operand by itself |
| Operators.Plus | expr.c:593-635 | two relocatable operands are a segment error; otherwise the result takes the section of the relocatable one, and integers add modulo 2^64 |
| Operators.Minus | expr.c:636-687 | never an error; the difference of two relocatable values is absolute; integer subtraction inverts addition modulo 2^64 |
| Operators.Compare | expr.c:729-891 | the operands must be in the same section; the result is an absolute, defined truth value, 1 exactly when the unsigned relation holds |
| Operators.NotEqual | expr.c:892-926 | a section mismatch or any double is refused; otherwise the result is 1 exactly when the values differ |
| Operators.Equal | expr.c:927-967 | a section mismatch, or a double compared with an integer on its right, is refused; otherwise the result is 1 exactly when the values are equal |
| Operators.Times | expr.c:976-1015 | the product is defined, keeps the left section, is a double exactly when an operand is one, and wraps modulo 2^64 |
| Operators.Divide | expr.c:1016-1078 | a zero divisor is an error; the quotient truncates toward zero in int32 arithmetic and is sign-extended, and keeps the left section |
| Operators.Modulo | expr.c:1079-1091 | doubles and a zero divisor are refused; the result r is the unsigned remainder: x = (x / y) * y + r with r below the divisor, and r is x when x < y |
| Operators.Shift | expr.c:1092-1111 | doubles are refused; a count of 64 or more stops the evaluation; the result is absolute and defined |
| Operators.Bitwise | expr.c:1112-1141 | doubles are refused; the result is absolute and defined |
| Operators.Unary | expr.c:688-728 | a relocatable operand is a segment error; `!` and `~` refuse a double; integer unary minus negates the int read from the low 32 bits and sign-extends it to 64 bits, and on -2^31, where C overflows, stops with `Undefined`; `!` gives 1 exactly on 0; `~` gives 2^64 - 1 - x |
| Operators.Binary | expr.c:1142-1143 | a code that is no binary operator is an internal error, and every other stop is an error or a point of undefined behaviour |
| Operators.BinaryAsWritten | expr.c:585-1143 | the operators other than `>=` and `/` behave as in Binary |
| Operators.QuotientFits | expr.c:1016-1078 | the int32 quotient fits in 32 bits except for -2^31 / -1 |
| Machine.Neg32Twice | expr.c:688-704 | unary minus negates the int read from the low 32 bits, its result can be negated again, and twice gives back the sign-extended low half |
| Machine.CDivTruncates | expr.c:1016-1078 | C's division truncates toward zero: the remainder has the sign of the dividend and is smaller than the divisor |
| Machine.Div32Properties | expr.c:1016-1078 | a quotient is always a sign-extended 32-bit value |
| Machine.Div32Truncates | expr.c:1016-1078 | -7/2 is -3, 7/-2 is -3, and -2^31/-1 wraps to -2^31 |
| Machine.SignExtendRoundTrip | expr.c:1016-1078 | reading back a sign-extended value gives the value |
| Machine.SignExtendShape | expr.c:1016-1078 | a sign-extended word has an upper half of all zeros or all ones |
| Machine.SwapHalvesInvolution | direct.c:958-959 | the `dc.i` swap fits in 32 bits and is its own inverse on the low 32 bits |
| Evaluator.Finish | expr.c:1148-1162 | ENDEXPR hands back the top of the stack, and an external symbol makes it undefined |
| Evaluator.SymbolStep | expr.c:532-564 | a symbol is marked REFERENCED and pushed with its value (0 when undefined) less GLOBAL; an undefined non-global symbol ends with "unknown"; an undefined global becomes the external symbol; a second external is a segment error |
| Evaluator.OpStep | expr.c:585-1143 | an operator replaces its operands by its result, or stops with too few operands |
| Evaluator.Step | expr.c:528-1143 | every cell leaves the stack one deeper than it took, and only REFERENCED bits change in the symbol table |
| Evaluator.ConstantPushes | expr.c:565-580 | CONST, FCONST and ACONST push one entry and leave every slot below, the external symbol and the symbol table unchanged; FCONST pushes an absolute, defined double |
| Evaluator.ConstAsWritten | expr.c:565-569 | as written, CONST moves both stack pointers up onto the value and ABS and DEFINED, keeping the value slots below |
| Evaluator.FConstAsWritten | expr.c:570-575 | as written, FCONST stores the double in the top value slot without moving its pointer, and pushes only the attribute, so the attribute pointer ends one slot further ahead |
| Evaluator.Run | expr.c:528-1146 | the loop only sets REFERENCED bits, and a result with an external symbol is undefined and names an undefined global entry |
| Evaluator.RunStep | expr.c:528-1146 | the loop takes one cell at a time |
| Evaluator.Conclude | expr.c:1148-1162 | the status is an error exactly when the evaluation failed, and then one diagnostic is added |
| Evaluator.Evaluate | expr.c:519-1163 | evexpr changes only REFERENCED bits and the log; a new external symbol is an undefined global entry and makes the result undefined |
| Evaluator.SymbolCell | expr.c:532-564 | the in-place symbol cell agrees with SymbolStep |
| Evaluator.OperatorCell | expr.c:585-1143 | the in-place operator cell agrees with OpStep |
| Evaluator.ApplyCell | expr.c:528-1143 | agrees with Step |
| Evaluator.EvExpr | expr.c:519-1163 | the in-place loop over the buffer agrees with Evaluate |
| EvalFacts.RunNeverShort | expr.c:528-1146 | code whose depth never runs short never makes the evaluator pop an empty stack, and resolved code never follows a dangling reference |
| ExprEntry.Touch | expr.c:421-440 | the fast path looks the symbol up (creating it), marks it REFERENCED and consumes one token |
| ExprEntry.FastSymbol | expr.c:421-491 | the fast path on a symbol emits a reference and ENDEXPR; an equated register's value is below 32; an undefined symbol gives 0; only an undefined global becomes the external symbol |
| ExprEntry.FastPath | expr.c:364-500 | a register gives its number, a constant its value, `*` the location with the section's attributes; a token of any other kind is an undefined RISC register |
| ExprEntry.Slow | expr.c:505-509 | the general path parses with expr0, appends ENDEXPR, then evaluates; a parse failure ends with an error |
| ExprEntry.ExprSpec | expr.c:323-510 | on success the buffer ends with ENDEXPR; no tokens are added; the tokens, sections, mode and logs are kept; it takes the fast path on the corrected test FastGuard (see Findings and Left out) |
| ExprEntry.ExprAsWritten | expr.c:323-510 | with the fast-path test as written, success still ends the buffer with ENDEXPR |
| ExprEntry.WordAt | expr.c:355-361 | a word of the token buffer is a code or a payload word |
| ExprEntry.WordClass | expr.c:355-361 | reading the class table gives Class |
| ExprEntry.BankWarnings | expr.c:250-258 | agrees with BankCheck |
| ExprEntry.TouchSymbol | expr.c:421-440 | agrees with Touch |
| ExprEntry.FastSymbolRef | expr.c:421-491 | agrees with FastSymbol |
| ExprEntry.Fast | expr.c:364-500 | agrees with FastPath |
| ExprEntry.TakeFast | expr.c:355-361 | the test made with the class table is FastGuard, the corrected test of Findings (see Left out) |
| ExprEntry.Expr | expr.c:323-510 | the in-place expr() agrees with ExprSpec, and so uses the corrected fast-path test (see Left out) |
| ExprFacts.ExprTakes | expr.c:355-361 | expr() takes the fast path exactly when its test holds |
| ExprFacts.FastConstAgrees | expr.c:376-386 | a lone constant takes the fast path, which gives exactly what parsing and evaluating it gives |
| ExprFacts.FastStarAgrees | expr.c:404-420 | a lone `*` takes the fast path and gives the value, attributes and state of the general path, except for the buffer cell |
| ExprFacts.FastSymbolAgrees | expr.c:421-491 | a lone symbol that is defined or global, is not an equated register and raises no error takes the fast path, which gives exactly what the general path gives |
| ExprFacts.FastGuardSucceeds | expr.c:355-375 | on a well-formed token stream, every shape the fast-path test admits succeeds |
| ExprFacts.ParsedNeverShort | expr.c:505-509 | evaluating what expr0 parsed never runs short of operands nor meets a dangling reference |
| ExprFacts.ExprNeverShort | expr.c:323-510 | when an expression parses, a failure of expr() is never a short stack nor a dangling reference |
| ExprFacts.SlowConst | expr.c:234-237 | the general path on a lone constant gives its value, absolute and defined |
| ExprFacts.SlowStar | expr.c:290-297 | the general path on a lone `*` gives the location with the section's attributes |
| ExprFacts.EvaluateSym | expr.c:532-564 | evaluating a reference to a defined or global symbol marks it REFERENCED and gives its value |
| AbsExpression.AbsExpr | direct.c:569-583 | abs_expr succeeds exactly when expr() does and the value is defined and in no section; an undefined value or a relocatable one is reported |
| AbsExpression.AbsExprOf | direct.c:569-583 | agrees with AbsExpr |
| AbsExpression.LiteralIsAbsolute | direct.c:569-583 | a lone literal is absolute and gives its value |
| SectionDirectives.ToSection | direct.c:761-803 | refused exactly in RISC mode; otherwise the current section is saved and the named one restored, with its BSS flag |
| SectionDirectives.DSection | direct.c:761-803 | agrees with ToSection |
| SectionDirectives.SectionRoundTrip | direct.c:761-803 | leaving a section for another and coming back finds its counter and contents as they were |
| SectionDirectives.AbsSection | direct.c:740-754 | the section is saved, then ABS starts at the expression's value (0 without one); a refused expression leaves the section where it was |
| SectionDirectives.DAbs | direct.c:740-754 | agrees with AbsSection |
| SectionDirectives.AbsAtLiteral | direct.c:740-754 | `.abs n` starts ABS at n |
| SectionDirectives.RiscMode | direct.c:1235-1279 | allowed only in TEXT or DATA; selects one processor, no bank, and ends an .org unless the processor was already selected |
| SectionDirectives.DRiscMode | direct.c:1235-1279 | agrees with RiscMode |
| SectionDirectives.RiscModeIdempotent | direct.c:1235-1279 | selecting the same processor twice is selecting it once |
| SectionDirectives.Back68000 | direct.c:1220-1229 | back to the 68000 in TEXT, with any .org ended and the old section saved |
| SectionDirectives.D68000 | direct.c:1220-1229 | agrees with Back68000 |
| SectionDirectives.ModesGateDirectives | direct.c:761-773 | after .68000 the section directives work and .org is refused; after .gpu or .dsp it is the other way round |
| SectionDirectives.Origin | direct.c:92-111 | refused outside RISC mode; the org'd address becomes the expression's value and is made active; a refused expression is reported again and leaves it cleared |
| SectionDirectives.DOrg | direct.c:92-111 | agrees with Origin |
| SectionDirectives.OrgLiteral | direct.c:92-111 | `.org n` in RISC mode makes n the active address |
| SectionDirectives.OrgThenStar | direct.c:92-111 | after `.org n`, `*` reads n plus the bytes deposited since, as a 32-bit word |
| SectionDirectives.RegBank | direct.c:362-375 | the named bank becomes the active one, and nothing else changes |
| SectionDirectives.DRegbank | direct.c:362-375 | agrees with RegBank |
| SectionDirectives.BankSelectsWarnings | direct.c:362-375 | after .regbank0 only bank-1 registers draw the bank warning, and after .regbank1 only bank-0 ones |
| SectionDirectives.Unimplemented | direct.c:560-563 | the directive fails with one report and changes nothing else |
| SectionDirectives.DUnimpl | direct.c:560-563 | agrees with Unimplemented |
| Padding.Pad | direct.c:403-431 | the gap reaches a multiple of the unit, is below the unit, and is 0 exactly when already aligned |
| Padding.PadIsLeast | direct.c:403-431 | no shorter gap reaches a multiple of the unit |
| Alignment.AlignTo | direct.c:403-534 | the counter moves up to the next multiple and by less than the unit; the gap is filled with zeros outside BSS-like sections, where an active .org address moves with it; with `save` (.qphrase) a non-empty gap outside BSS first saves the current section; the section, its BSS flag, the symbols, fixups, marks and log stay as they were |
| Alignment.DAlign | direct.c:403-534 | agrees with AlignTo |
| Alignment.AlignIdempotent | direct.c:403-534 | aligning twice is aligning once |
| Alignment.Even | direct.c:381-397 | the counter becomes even |
| Alignment.DEven | direct.c:381-397 | agrees with Even |
| Alignment.EvenIsAlignTwo | direct.c:381-397 | .even is alignment to 2 |
| Alignment.AutoEven | direct.c:545-554 | outside BSS-like sections one zero byte is deposited (an active .org address moves with it); inside them only the counter moves by one; the label of the line, if any, moves with it, and nothing else changes |
| Alignment.AutoEvenUp | direct.c:545-554 | agrees with AutoEven |
| Alignment.AutoEvenKeepsLabel | direct.c:545-554 | on an odd counter auto_even lands where .even would, and a label that marked the old location marks the new one |
| Alignment.EvenFor | direct.c:865-866 | word and long data start on an even location, the padding being at most one zero byte outside BSS; byte data do not move the counter; fixups and marks are kept |
| Alignment.EvenForData | direct.c:865-866 | agrees with EvenFor |
| Alignment.DepositTwice | direct.c:879-880 | depositing two runs of bytes is depositing them together |
| Deposit.FitsAreSignedRanges | direct.c:1093-1133 | the range tests admit exactly -256..255 for bytes and -65536..65535 for words, read as signed |
| Deposit.DepOne | direct.c:1093-1142 | an undefined value leaves a fixup and zeros; a defined one is range-checked, big endian, with a mark when relocatable; a relocatable byte is refused |
| Deposit.DepositOne | direct.c:1093-1142 | agrees with DepOne |
| Deposit.DepBlock | direct.c:1077-1149 | dep_block only changes the section, fixups, marks and log |
| Deposit.DepositBlock | direct.c:1077-1149 | the in-place loop agrees with DepBlock |
| Deposit.BlockAllOrNothing | direct.c:1077-1149 | a refusal comes at the first copy, and a success moves the counter by count times the width |
| Deposit.BlockOfAbsolute | direct.c:1077-1149 | a defined absolute value that fits is deposited count times, big endian, with no fixup and no mark |
| Deposit.BlockOfUndefined | direct.c:1077-1149 | an undefined value leaves one fixup per copy, at the location of its copy |
| Deposit.BlockKeepsLog | direct.c:1077-1149 | an undefined block only appends fixups |
| DataDirectives.CBytes | direct.c:879-880 | the bytes stop at the first NUL or the end of the text |
| DataDirectives.CBytesChars | direct.c:879-880 | each byte is the low byte of the character at its place, and none of those characters is NUL |
| DataDirectives.DepositText | direct.c:879-880 | the in-place loop deposits CBytes of the text |
| DataDirectives.DcValue | direct.c:870-964 | an item never adds tokens, and changes the size only to a swapped long after `I` |
| DataDirectives.Dc | direct.c:852-973 | refused in BSS-like sections |
| DataDirectives.DcValueOf | direct.c:870-964 | agrees with DcValue |
| DataDirectives.DDc | direct.c:852-973 | agrees with Dc |
| DataDirectives.DcNext | direct.c:868-969 | one item and its separator either end the directive as DcItems does, or leave the rest of the list with fewer tokens |
| DataDirectives.DcString | direct.c:871-884 | `dc.b "text"` alone deposits the text's bytes and nothing else |
| DataDirectives.DcNumber | direct.c:886-959 | a number item not led by `I` whose value is defined, absolute and fits the size is deposited once, big endian, with no fixup and no mark, and later items keep the size |
| DataDirectives.DcOne | direct.c:852-973 | `dc v` with such a value alone on the line deposits, after the automatic even, its big-endian bytes and nothing else |
| DataDirectives.DcTwo | direct.c:852-973 | `dc v1,v2` with two such values deposits both values' big-endian bytes in order, with no fixup and no mark |
| DataDirectives.MoveiSticks | direct.c:886-891 | after `I`, the item is a long with swapped halves |
| DataDirectives.Dcb | direct.c:979-1001 | refused in BSS-like sections or when no comma follows an absolute count |
| DataDirectives.DDcb | direct.c:979-1001 | agrees with Dcb |
| DataDirectives.DcbOfAbsolute | direct.c:979-1001 | `dcb count,value` with an absolute value that fits deposits count big-endian copies after the automatic even, with no fixup and no mark |
| DataDirectives.InitSuffix | direct.c:1047-1056 | `.b`, `.w` and `.l` select byte, word and long; no suffix keeps the default |
| DataDirectives.InitCount | direct.c:1029-1041 | without `#` the count is 1 |
| DataDirectives.InitBlock | direct.c:1043-1058 | the value, suffix and block never add tokens |
| DataDirectives.InitItem | direct.c:1029-1058 | an item never adds tokens |
| DataDirectives.Init | direct.c:1014-1071 | refused in BSS-like sections, then in RISC mode |
| DataDirectives.InitCountOf | direct.c:1029-1041 | agrees with InitCount |
| DataDirectives.InitItemOf | direct.c:1029-1058 | agrees with InitItem |
| DataDirectives.InitBlockOf | direct.c:1043-1058 | agrees with InitBlock |
| DataDirectives.DInit | direct.c:1014-1071 | agrees with Init |
| DataDirectives.InitNext | direct.c:1027-1070 | one item and its separator either end the directive as InitItems does, or leave the rest with fewer tokens |
| DataDirectives.InitSingle | direct.c:1029-1058 | an item without a count whose value is defined, absolute and fits is deposited once, big endian, in the size its suffix selects |
| DataDirectives.Ds | direct.c:809-846 | refused outside BSS-like sections unless Alcyon compatibility is on |
| DataDirectives.Grow | direct.c:832-838 | the counter moves, nothing is stored, just_bss is set, and nothing else changes |
| DataDirectives.GrowBy | direct.c:832-838 | agrees with Grow |
| DataDirectives.ReserveSpace | direct.c:826-842 | agrees with Reserve |
| DataDirectives.DDs | direct.c:809-846 | agrees with Ds |
| DataDirectives.DsInBss | direct.c:832-838 | in a BSS-like section .ds moves the counter by count times the size code, after the automatic even, stores nothing and sets just_bss |
| DataDirectives.ReserveZeros | direct.c:839-842 | outside BSS the reservation deposits count zero values of the size |
| DataDirectives.DsZeros | direct.c:809-846 | with Alcyon compatibility outside BSS, .ds deposits count zero values, with no fixup and no mark |
| SymbolDirectives.Globl1 | direct.c:710-727 | a local name is refused; any other becomes a global label, created with value 0 when absent, and no other entry changes |
| SymbolDirectives.Globl1Of | direct.c:710-727 | agrees with Globl1 |
| SymbolDirectives.GloblIdempotent | direct.c:710-727 | marking a name global twice is marking it once |
| SymbolDirectives.Undmac1 | direct.c:1541-1551 | a macro of the name can no longer be found, and nothing else changes |
| SymbolDirectives.Undmac1Of | direct.c:1541-1551 | agrees with Undmac1 |
| SymbolDirectives.Apply | direct.c:589-617 | the function handed to symlist changes only symbols and the log |
| SymbolDirectives.SymList | direct.c:589-617 | symlist changes only the cursor, the symbols and the log |
| SymbolDirectives.SymListOf | direct.c:589-617 | agrees with SymList |
| SymbolDirectives.DGlobl | direct.c:730-734 | .globl runs symlist with globl1 and drops its status |
| SymbolDirectives.DUndmac | direct.c:1554-1558 | .undefmac runs symlist with undmac1 and drops its status |
| SymbolDirectives.SymListKeepsGlobal | direct.c:589-617 | .globl never takes GLOBAL away |
| SymbolDirectives.GloblList | direct.c:589-734 | `.globl n0, ..., nk` with no local name makes every name a global label and reports nothing |
| SymbolDirectives.CommHead | direct.c:1161-1182 | the name must be a symbol, not local and not defined; it becomes GLOBAL, COMMON and BSS before the comma is checked |
| SymbolDirectives.Comm | direct.c:1155-1190 | a refused head is an error; otherwise the absolute size becomes the symbol's value |
| SymbolDirectives.CommHeadOf | direct.c:1161-1182 | agrees with CommHead |
| SymbolDirectives.DComm | direct.c:1155-1190 | agrees with Comm |
| SymbolDirectives.CommLiteral | direct.c:1155-1190 | `.comm name,size` on a name not yet defined makes a global common block of that size and reports nothing |
| SymbolDirectives.UnequateReg | direct.c:251-287 | only equated registers change, by gaining UNDEF_EQUR, and the named one does |
| SymbolDirectives.UndefRegs | direct.c:251-287 | the list changes only the cursor, the log, and equated registers by UNDEF_EQUR |
| SymbolDirectives.EqurUndef | direct.c:251-287 | refused outside RISC mode |
| SymbolDirectives.DEqurundef | direct.c:251-287 | agrees with EqurUndef |
| SymbolDirectives.EqurUndefList | direct.c:251-287 | `.equrundef r0, r1, ...` marks every listed equated register and reports nothing |
| SymbolDirectives.CcUndef | direct.c:215-245 | succeeds exactly in RISC mode on a label that is an equated condition code, which gains UNDEF_CC; each refusal has its own report |
| SymbolDirectives.DCcundef | direct.c:215-245 | agrees with CcUndef |
| SymbolDirectives.AssertStep | direct.c:685-704 | an expression that goes on consumes tokens; a refusal is one of .assert's two reports |
| SymbolDirectives.AssertRefusal | direct.c:685-704 | .assert fails only with an undefined-value or assertion-failure report |
| SymbolDirectives.AssertStepOf | direct.c:685-704 | agrees with AssertStep |
| SymbolDirectives.DAssert | direct.c:685-704 | agrees with AssertList |
| SymbolDirectives.AssertLiteral | direct.c:685-704 | `.assert n` fails exactly when n is zero |
| Layouts.PopCount | direct.c:1371-1375 | a mask names no more registers than its value |
| Layouts.PopCountBelow | direct.c:1371-1375 | a mask of n bits names at most n registers |
| Layouts.RegListSpace | direct.c:1371-1375 | a register list takes at most 64 bytes |
| Layouts.RegSpace | direct.c:1371-1375 | the loop over the 16 bits adds four bytes per register, wrapping at 64 bits |
| Layouts.FieldOffset | direct.c:1469-1474 | a .cstruct word or long field starts on an even offset; anything else keeps the offset |
| Layouts.Define | direct.c:1333-1348 | a defined label is refused; otherwise it is declared once, made DEFINED and EQUATED, keeps its section bits, and takes the value |
| Layouts.DefineOf | direct.c:1333-1348 | agrees with Define |
| Layouts.Field | direct.c:1443-1497 | the symbol is defined at the aligned offset and the offset moves past its size; .cstruct refuses a symbol without a suffix |
| Layouts.FieldOf | direct.c:1443-1497 | agrees with Field |
| Layouts.Item | direct.c:1317-1396 | an item that goes on consumes tokens |
| Layouts.ItemOf | direct.c:1317-1396 | agrees with Item |
| Layouts.Start | direct.c:1305-1315 | without `#` the offset starts at 4 for .cargs and 0 for .cstruct |
| Layouts.Layout | direct.c:1292-1303 | refused in RISC mode |
| Layouts.DLayout | direct.c:1417-1535 | agrees with Layout |
| Layouts.DCargs | direct.c:1292-1402 | .cargs agrees with Layout |
| Layouts.DCstruct | direct.c:1417-1535 | .cstruct agrees with Layout |
| Layouts.CstructAligns | direct.c:1469-1495 | `.b` fields are packed, and word and long fields start on an even offset one byte up at most |
| Layouts.NewField | direct.c:1443-1497 | a new suffixed field is defined at the aligned offset, two tokens are consumed, and nothing else changes |
| Layouts.ItemsKeepDefined | direct.c:1340-1341 | a symbol defined before is never changed by later items |
| Layouts.CargsFirst | direct.c:1292-1364 | the first new argument of .cargs is at 4, above the return address, and keeps that value |
| Layouts.CstructExample | direct.c:1417-1535 | `.cstruct a.b, b.w, c.l` puts a at 0, b at 2 and c at 4 |
| Directives.Bytes | direct.c:403-534 | every alignment is a unit |
| Directives.Dirtab | direct.c:31-86 | the table has a handler for exactly the numbers 0 to 53 |
| Directives.RunSection | direct.c:31-86 | .noclear changes nothing, an unimplemented directive reports so, and an alignment aligns |
| Directives.Run | direct.c:31-86 | the handlers outside the model are exactly the I/O ones |
| Directives.DispatchSection | direct.c:31-86 | agrees with RunSection |
| Directives.DispatchData | direct.c:31-86 | agrees with RunData |
| Directives.DispatchSymbol | direct.c:31-86 | agrees with RunSymbol |
| Directives.Dispatch | direct.c:31-86 | a modelled handler runs as Run says, and an external one leaves the state untouched |
| Directives.UnimplementedEntries | direct.c:31-86 | exactly fifteen numbers are unimplemented directives |
| Directives.ExternalEntries | direct.c:31-86 | exactly eleven numbers lead outside the model |
| Directives.AlignEntries | direct.c:71-74 | .long, .phrase, .dphrase and .qphrase align to 4, 8, 16 and 32, and only .qphrase saves the section |
| TokenClass.OparGroupClass | expr.c:33 | `(`, `[` and `{` open a group (OPAR) |
| TokenClass.CparGroupClass | expr.c:34 | `)`, `]` and `}` close a group (CPAR) |
| TokenClass.SunaryGroupClass | expr.c:35-38 | the `^^` operators are special unary operators (SUNARY) |
| TokenClass.UnaryGroupClass | expr.c:39 | `!`, `~` and unary minus are UNARY |
| TokenClass.AddGroupClass | expr.c:41 | `+` and `-` are ADD |
| TokenClass.ShiftGroupClass | expr.c:42 | `<<` and `>>` are SHIFT |
| TokenClass.AndGroupClass | expr.c:44 | `&` is AND |
| TokenClass.XorGroupClass | expr.c:45 | `^` is XOR |
| TokenClass.OrGroupClass | expr.c:46 | `\|` is OR |
| TokenClass.ItokClIsJoin | expr.c:30-47 | itokcl is the twelve groups joined by 0 and closed by 1 |
| TokenClass.GroupClassIsClass | expr.c:30-47 | the class read off the groups is the class read off the list |
| TokenClass.StdTable | expr.c:78-95 | the standard table has an entry for each of the 256 codes |
| Operators.CompareGeAsWritten | expr.c:769-809 | `>=` as written: refused exactly on a section mismatch, the truth value is right, but the result keeps the left operand's attributes |
| Operators.DivideAsWritten | expr.c:1016-1078 | `/` as written: a divisor that is not zero but has zero low 32 bits passes the test and divides by zero; every other divisor behaves as in Divide |
| Operators.QuotientBound | expr.c:1016-1078 | dividing a natural by at least 1 does not grow it, and by at least 2 halves it |
| Machine.Signed32 | expr.c:1016-1078 | reading a word as int32_t gives a 32-bit signed value |
| Machine.Wrap32 | expr.c:688-704 | a 32-bit int computation wraps into the int32 range |
| Machine.LowOfWord | expr.c:1016-1078 | reducing to 64 bits keeps the low 32 bits |
| Deposit.Width | direct.c:1093-1142 | a size deposits 1, 2 or 4 bytes |
| Deposit.Repeat | direct.c:1077-1149 | count copies of a run are count times as long |
| Deposit.AbsoluteOne | direct.c:1093-1142 | one defined absolute value that fits is deposited big endian with no fixup and no mark |
| Padding.PadFacts | direct.c:403-431 | the gap computed from the remainder reaches a multiple, and no shorter one does |
| Padding.Gap2 | direct.c:381-397 | the gap to an even counter is the least that reaches it |
| Padding.Gap4 | direct.c:403-431 | the gap for .long is the least that reaches a multiple of 4 |
| Padding.Gap8 | direct.c:437-465 | the gap for .phrase is the least that reaches a multiple of 8 |
| Padding.Gap16 | direct.c:471-499 | the gap for .dphrase is the least that reaches a multiple of 16 |
| Padding.Gap32 | direct.c:505-534 | the gap for .qphrase is the least that reaches a multiple of 32 |
| EvalFacts.DepthStep | expr.c:528-1146 | the depth of code from a cell on is that cell's pops and push followed by the rest |
| EvalFacts.DepthStuck | expr.c:528-1146 | once the stack has run short it stays short |
| SectionDirectives.StarAfterDeposit | direct.c:92-111 | with an active .org, `*` reads the org'd address plus the bytes deposited, as a 32-bit word |
| Layouts.ExampleLast | direct.c:1443-1497 | in `.cstruct a.b, b.w, c.l`, c lands at 4 |
| Layouts.ExampleMiddle | direct.c:1443-1497 | in `.cstruct a.b, b.w, c.l`, b moves up from 1 to 2 |
| Layouts.WrapLater | direct.c:1371-1375 | adding in 64 bits step by step is adding once and wrapping |
| SymbolDirectives.GloblStep | direct.c:589-617 | the first name of a list is made global, and the list goes on after its comma |
| SymbolDirectives.CommHeadDeclares | direct.c:1161-1182 | a name not yet defined followed by a comma is declared common |
| SymbolDirectives.UndefRegsName | direct.c:251-287 | a name at the cursor is unequated and the list goes on after it |
| SymbolDirectives.UndefRegsComma | direct.c:251-287 | a comma before a name is skipped |
| SymbolDirectives.MarkKept | direct.c:251-287 | a mark made earlier in the list is kept by the rest of it |
| DataDirectives.DcItemsUnfold | direct.c:868-969 | one round of dc's list: an item that stops ends the directive, one without a comma ends it at the end of the line, and a comma goes on with the size the item left |
| DataDirectives.TextStep | direct.c:879-880 | depositing a non-NUL character then the rest of the text deposits the text from that character on |
| DataDirectives.TextEnd | direct.c:879-880 | at the end of the text or at a NUL nothing more is deposited |
| Findings.ClassOfDollar | expr.c:30-47 | `$` is in no group of itokcl, so its class is END |
| Findings.DivideByHighWord | expr.c:1016-1078 | see Findings |
| Findings.GreaterEqualKeepsSection | expr.c:769-809 | see Findings |
| Findings.LoneDollar | expr.c:355-361 | see Findings |
| Findings.FloatAfterConst | expr.c:565-575 | see Findings |
| Findings.FloatFirst | expr.c:565-575 | a double on an empty stack followed by a constant: as written the operator reads the double with its FLOAT attribute and then the constant, the same two entries the corrected stack holds |
| DataDirectives.InitWordSuffix | direct.c:1050 | see Findings |

## Left out

- I/O directives: the handlers that read files, print, or drive the
  input stack and the listing are not modelled. These are `.goto`,
  `.incbin`, `.include`, `.end` (`fpop`), `.exitm`, `.list`, `.nlist`,
  `.title`, `.subttl`, `.eject` and `.print`. `Directives.Dispatch`
  reports them and leaves the state untouched.
- `chcheck`, `listvalue` and the `verb_flag` tracing are not modelled.
  They only manage memory and the listing.
- Floating point: the host's double arithmetic is a parameter (`FloatOps`).
  The evaluator's float branches call it, and no IEEE result is stated.
- Evaluator.Step: an FCONST cell is pushed like a CONST, which is the
  corrected behaviour named in Findings. The code as written pushes only
  the attribute word, which is modelled by `Evaluator.FConstAsWritten`.
- Evaluator.Run: it inherits the corrected FCONST of `Evaluator.Step`.
- Evaluator.OpStep: it applies the corrected `/` and `>=` named in
  Findings, not the code as written (`Operators.DivideAsWritten`,
  `Operators.CompareGeAsWritten`).
- Evaluator.OperatorCell: it applies the corrected `/` and `>=`, as
  `Evaluator.OpStep` does.
- Evaluator.ApplyCell: it inherits the corrected FCONST, `/` and `>=`.
- Evaluator.Evaluate: it inherits the corrected FCONST, `/` and `>=`.
  So does every directive that evaluates an expression.
- Evaluator.EvExpr: it inherits the corrected FCONST, `/` and `>=`.
- DataDirectives.InitBlock: it uses the corrected `.w` suffix named in
  Findings, not the code as written (`DataDirectives.InitSuffixAsWritten`).
- DataDirectives.Init: it inherits the corrected `.w` suffix.
- DataDirectives.DInit: it inherits the corrected `.w` suffix.
- Evaluator stack size: `evstk` has a fixed capacity; the model's stack
  is unbounded.
- Operators.Shift: the value is not stated for an integer shift, and a
  count of 64 or more stops with `Undefined(ShiftTooWide)`. The reason
  is that the bit-vector proofs exceed the verifier's resources.
- Operators.Bitwise: the value of `&`, `^` and `|` is not stated in the
  contract, for the same reason. Only the attributes and the refusal of
  doubles are stated.
- Operators.Divide: `INT_MIN / -1` is undefined in C. The model stops
  there with `Undefined(DivOverflow)`.
- Operators.Unary: the integer negation of `INT_MIN` is undefined in C.
  The model stops there with `Undefined(NegOverflow)`.
- ExprEntry.ExprSpec: it uses the corrected fast-path test named in
  Findings (`ExprEntry.FastGuard`), not the test of expr.c:355-361 as
  written (`ExprEntry.FastGuardAsWritten`, `ExprEntry.ExprAsWritten`).
  Two differences follow. A lone `$` gives the current location, where
  the code as written reports "undefined RISC register". Any other lone
  one-word token that is no register and no `*` (a lone `-` or `(`) goes
  to the general path and gets its report ("bad expression"), where the
  code as written reports "undefined RISC register". Every directive
  that evaluates an expression inherits this (`AbsExpr`, `DcValue`,
  `InitBlock`, `AssertStep` and the others).
- ExprEntry.TakeFast: it computes the corrected fast-path test
  `ExprEntry.FastGuard`, with the same two differences from expr.c:355-361
  as written: a lone `$`, and the report for other lone one-word tokens.
- ExprEntry.Expr: it agrees with `ExprEntry.ExprSpec` and so uses the
  corrected fast-path test, with the same two differences: a lone `$`,
  and the report for other lone one-word tokens. Every directive that
  evaluates an expression inherits this.
- Token text: the text of a SYMBOL or STRING token is a sequence of
  characters each standing for one byte of the line, below 256. A
  character outside ASCII is several bytes of its encoding, one
  character each. `ExprInit.Ord` and `DataDirectives.CBytes` take a
  character's byte as its code modulo 256.
- Token words: the token buffer is a sequence of whole tokens. After an
  error, the C cursor can stop inside a multi-word token; the model moves
  by whole tokens.
- Payload words: a payload word that happens to equal EOL is not modelled.
  The fast-path test reads such words as having no code (`NOCODE`).
- ExprEntry.FastPath: a register followed by a binary operator (`r1+5`)
  passes the fast-path test. The fast path then ignores the rest of the
  line, and the model keeps that as written without further claims.
- ExprFacts.FastSymbolAgrees: this is stated only when no external
  symbol was set before. The fast path keeps the caller's external symbol
  for a defined symbol; the general path clears it.
- Location counters (`sloc`, `pcloc`, `orgaddr`) are unbounded naturals.
  They are reduced modulo 2^32 where they enter an expression. The
  32-bit wrap of the counter itself is not modelled.
- `sym_decl` is modelled as appending the key to the declaration order.
- A symbol's name is carried in its token; the string table is not
  modelled.
- Layouts.Item: `reglist` is a parameter. A list it accepts that consumes
  no token ends the directive. This progress guard is not in the source,
  which cannot meet that case, since a list starts at a register token.
- Directives.Dispatch: requires a directive number inside the table, since
  indexing past its end is undefined in C.
- DataDirectives.CBytes: its per-character facts are stated by the lemma
  `CBytesChars` rather than in its own contract.
- `.ds` multiplies the count by the size code, with `.n` taken as 8.
- `dos_time` and `dos_date` are values in the per-line data.

## Findings

| source | as written | input that shows it | evidently intended | confidence | as-written member | corrected member |
|---|---|---|---|---|---|---|
| expr.c:1016-1078 | the zero test of `/` reads the whole 64-bit divisor, but the division uses its low 32 bits | `1/$100000000`: the divisor is not zero, yet its low 32 bits are, so the program divides by zero | test the 32 bits that are divided and report "divide by zero" | high (not executed) | Operators.DivideAsWritten, shown by Findings.DivideByHighWord | Operators.Divide |
| expr.c:769-809 | integer `>=` keeps the left operand's attribute word, because the branch that resets it is reached only in cases handled earlier | `a >= b` on two TEXT labels gives a truth value marked TEXT, which would be relocated | an absolute, defined truth value, like the other comparisons | high (not executed) | Operators.CompareGeAsWritten, shown by Findings.GreaterEqualKeepsSection | Operators.Compare |
| expr.c:355-361 | the first shape of the fast-path test admits any single-word token before EOL, but the fast path handles only registers and `*` | a lone `$`: the fast path reports "undefined RISC register", while the general path gives the current location | restrict that shape to the tokens the fast path handles | high (not executed) | ExprEntry.ExprAsWritten with ExprEntry.FastGuardAsWritten, shown by Findings.LoneDollar | ExprEntry.ExprSpec with ExprEntry.FastGuard |
| expr.c:570-575 | FCONST stores the double in the top value slot without moving the value pointer, while it pushes the attribute | `2*1.5`: the 2 is overwritten, and `*` reads value slot 0, which the evaluation never wrote, beside the 2's attribute | push the double like a CONST | high (not executed) | Evaluator.FConstAsWritten, shown by Findings.FloatAfterConst | Evaluator.Step |
| direct.c:1050 | in `.init`, the `.w` suffix selects a byte | `.init 1000.w` is refused as out of range; as a word it would deposit the bytes 3 and 232 | `.w` selects a word | high (not executed) | DataDirectives.InitSuffixAsWritten, shown by DataDirectives.InitWordSuffix | DataDirectives.InitSuffix |
