# ez interpreter core, modelled in Dafny

`ez` is an interpreter for a small line-oriented language. Its pipeline has three parts:

- The **lexer** turns source text into tokens. Each token carries its line, column and offset.
- The **parser** matches fixed-shape token windows against statement patterns, tried in a fixed order, plus a variable-length `call` form.
- The **VM** runs the statements over a machine state:
  - variables holding int64 values;
  - a fixed-size memory of int64 cells;
  - a label-to-index jump table;
  - a statement index;
  - a registry of builtins, each with an arity and a validation flag.

This project models all three parts as pure functions over immutable datatypes and proves what each part promises.

Module layout:

| module | file | models |
|---|---|---|
| `Results` | results.dfy | `Result`/`Option` wrappers |
| `GoInt` | goint.dfy | int64 range, wrap-around, truncating `/` and `%`, byte truncation |
| `Numerals` | numerals.dfy | digits, `strconv.ParseInt` with its errors discarded, `%d` formatting |
| `Tokens` | tokens.dfy | token kinds, keyword and operator tables, token and error records |
| `Lexical`, `Lexer`, `LexerProperties` | lexical.dfy, lexer.dfy, lexer_properties.dfy | the recognisers, the lexing loop, and what a token list says about the text |
| `Ast` | program.dfy | values, expressions, statements, `Type()` tags |
| `Parser`, `ParserProperties` | parser.dfy, parser_properties.dfy | patterns, builders, the parsing loop and its guarantees |
| `VmState`, `Builtins`, `Executor` | vm_state.dfy, builtins.dfy, executor.dfy | machine state, statement handlers, builtins, jump pre-pass, dispatch loop |
| `VmProperties`, `FileProperties`, `RunProperties` | vm_properties.dfy, file_properties.dfy, run_properties.dfy | executor guarantees, file-builtin checks, invariants of whole runs |

The repository snapshot mixes two revisions. The model settles on one coherent version:

- **`call` keyword.** The `call` keyword is added to the keyword table as `KeywordCall`. `ez/parser/parser.go:85` needs it, but `ez/lexer/token.go:13-53` does not declare it.
- **Dedicated statements.** `ShowNum`, `ShowChar` and `Input` are statement variants, since the parser builds them at `ez/parser/parser.go:178-208`. The dispatch switch at `ez/vm/vm.go:195-222` has no case for them, so executing one only advances the index.
- **Operand kinds.** `Str` is kept as an operand kind because the builtins test for it. No lexer path produces a string literal, so no parsed operand has it. The other kind is `Untyped`, which is Go's empty `ValueType`.
- **Operator tables.** `orderedOperators` and `isOperatorCharacter` do not appear in the source files. They are constants here: two-character operators come before their one-character prefixes, and the operator characters are the operators' first characters.

Three behaviours of the code fix the kind of error the model gives:

- **Panics.** Some failures are Go panics, not returned errors, and the model gives them an error with phase `Panic`:
  - integer division or remainder by zero (`ez/vm/vm.go:77-80`);
  - an unknown operator (`ez/vm/vm.go:82`, `ez/vm/vm.go:128`);
  - a failed read of standard input, such as end of input (`ez/vm/vm.go:303-307`).
- **Missing file.** `read_file` and `write_file` report a failed file operation at the file-name operand's token (`ez/vm/vm.go:429-431`, `ez/vm/vm.go:494-496`).
- **Both builtin forms.** The code has dedicated `shown`, `showc` and `input` statements (`ez/parser/parser.go:178-208`) and registry builtins of the same names (`ez/vm/vm.go:250-312`). The model has both. The registry `shown`, `showc` and `input` cannot be reached from a parsed program: those names lex as keywords (`ez/lexer/token.go:46-53`), and a `call` needs an identifier after the keyword (`ez/parser/parser.go:89`). The dedicated statements only advance the index, so a parsed program prints only through `debug`.

## Model

| member | source | states |
|---|---|---|
| GoInt.Wrap | ez/vm/vm.go:72-76 | the result is an int64, equals the input when the input fits, and differs from it by a multiple of 2^64 |
| GoInt.TruncDivision | ez/vm/vm.go:77-80 | Go's division identity `a == b*(a/b) + a%b` with a remainder smaller than the divisor and zero or of the dividend's sign |
| GoInt.WrappedQuotient | ez/vm/vm.go:78 | the wrapped quotient is the exact quotient except for MinInt64 / -1, which wraps to MinInt64 |
| GoInt.TruncModInRange | ez/vm/vm.go:80 | the truncated remainder of int64 operands is itself an int64 |
| GoInt.TruncAgreesOnNaturals | ez/vm/vm.go:77-80 | on a non-negative dividend and positive divisor Go's and Dafny's division agree |
| GoInt.Clamp | ez/vm/vm.go:31 | an out-of-range literal saturates at the nearer int64 bound, as `strconv.ParseInt` returns alongside its discarded error |
| GoInt.LowByte | ez/vm/vm.go:266 | `byte(v)` is in 0..255 and congruent to v modulo 256 |
| Numerals.DecimalString | ez/lexer/lexer.go:35 | the rendering is a decimal numeral whose value is the number, with no leading zero |
| Numerals.FormatInt | ez/lexer/lexer.go:35 | `%d` renders non-negatives as their decimal numeral and negatives as `-` followed by the magnitude's numeral |
| Numerals.ParseInt | ez/vm/vm.go:31 | every string reads as an int64, and a numeral after an optional sign reads as its signed value saturated at the int64 bounds |
| Numerals.ParseDecimalString | ez/vm/vm.go:31 | reading back a rendered natural gives it back, saturated at the int64 maximum |
| Numerals.ParseFormatInt | ez/lexer/lexer.go:34-35 | `ParseInt` inverts `FormatInt` on every int64 |
| Numerals.ParseIntRejectsForeignDigit | ez/lexer/lexer.go:34 | a string whose first non-digit after the sign comes while the digits before it are still below 2^64 reads as 0, the result that goes with the discarded syntax error |
| Numerals.ParseIntOverflowsFirst | ez/vm/vm.go:31 | digits that reach 2^64 before any non-digit make the read saturate at the int64 bound of the sign, whatever follows, as `strconv` returns its range error first |
| Tokens.KeywordSet | ez/lexer/token.go:46-58 | `IsKeyword` holds exactly for `if`, `end`, `goto`, `shown`, `showc`, `input` and the added `call` |
| Tokens.KeywordTable | ez/lexer/token.go:46-53 | the keyword table is injective, maps only to keyword kinds, and sends `shown` to shownum and `showc` to showchar |
| Tokens.SpellingAfterTable | ez/lexer/token.go:60-74 | every operator lexes to an operator kind whose spelling is that operator |
| Tokens.TableAfterSpelling | ez/lexer/token.go:60-74 | every operator kind's spelling is an operator that lexes back to that kind |
| Tokens.OperatorTableBijective | ez/lexer/token.go:60-79 | the operator table is a bijection onto the operator kinds, so distinct operators lex to distinct kinds |
| Tokens.OperatorLengths | ez/lexer/token.go:60-79 | operators have one or two characters, the two-character ones are exactly `<=` `>=` `==` `!=`, and a lone `!` is no operator |
| Tokens.OrderedOperatorsShape | ez/lexer/lexer.go:80-81 | the ordered list holds each operator once, no entry is a proper prefix of a later one, and every operator starts with an operator character |
| Tokens.OperatorCharacterSet | ez/lexer/lexer.go:166 | every character of every operator is an operator character |
| Lexical.HexData | ez/lexer/lexer.go:34-35 | a hex literal's data is a decimal numeral that reads back as the saturated value of the digits after `0x` |
| Lexical.HexDataIsParseInt | ez/lexer/lexer.go:34-35 | the hex data is `strconv.ParseInt` of the digits after `0x` in base 16, rendered in decimal |
| Lexer.SkipWhitespaceSpec | ez/lexer/lexer.go:18-30 | the skipped prefix is all spaces and tabs and is followed by the end of input or a non-blank |
| Lexer.RunIsLongest | ez/lexer/lexer.go:18-30 | no run of the wanted characters from the start is longer than the one measured |
| Lexer.MatchDecimalInt | ez/lexer/lexer.go:12 | a match is a decimal prefix ending at a word boundary, and any such prefix is the match |
| Lexer.MatchHexInt | ez/lexer/lexer.go:13 | a match is a `0x` hex prefix ending at a word boundary, and any such prefix is the match |
| Lexer.MatchIdentifier | ez/lexer/lexer.go:14 | a match is an identifier prefix ending at a word boundary; there is none exactly when the input does not start with a letter or underscore |
| Lexer.MatchLabel | ez/lexer/lexer.go:15 | a match is `:` plus an identifier ending at a word boundary; there is none exactly when the input does not start that way |
| Lexer.HexShadowsNoDecimal | ez/lexer/lexer.go:33-45 | input starting with `0x` never matches the decimal pattern, so trying hex first decides every hex literal |
| Lexer.HexDataAsWrittenIsZero | ez/lexer/lexer.go:34-35 | as written every hex literal lexes to the data "0", since `x` is not a base-16 digit |
| Lexer.HexLiteralDiscrepancy | ez/lexer/lexer.go:34-35 | `0x1A` lexes to "0" as written and to "26" as intended |
| Lexer.HexDataValue | ez/lexer/lexer.go:34-35 | a hex literal in int64 range reads back as the value of its digits |
| Lexer.GetIntLiteral | ez/lexer/lexer.go:32-55 | a literal token spells a decimal or hex numeral ending at a word boundary, and it fails with the integer-literal error and hint exactly when no such prefix exists |
| Lexer.GetIdentifier | ez/lexer/lexer.go:57-77 | the token's data is the matched word, its kind is the keyword's kind iff the word is a keyword and identifier otherwise, and failure means no identifier start |
| Lexer.FirstOperatorIsLongest | ez/lexer/lexer.go:79-91 | the first ordered operator prefixing the input is at least as long as any operator prefixing it |
| Lexer.GetOperator | ez/lexer/lexer.go:79-92 | the token is the longest operator prefixing the input, and it fails with "Invalid operator" exactly when no operator prefixes it |
| Lexer.GetLabel | ez/lexer/lexer.go:94-105 | the data is the label text minus the colon, the length counts the colon, and failure means no `:identifier` prefix |
| Lexer.IntLiteralSpells | ez/lexer/lexer.go:32-52 | an integer-literal token spells the text it was read from, which holds no newline |
| Lexer.IdentifierSpells | ez/lexer/lexer.go:57-74 | an identifier or keyword token spells its text, which holds no newline |
| Lexer.OperatorSpells | ez/lexer/lexer.go:79-89 | an operator token spells its text, which holds no newline |
| Lexer.LabelSpells | ez/lexer/lexer.go:94-102 | a label token spells its text, which holds no newline |
| Lexer.ScanToken | ez/lexer/lexer.go:142-190 | a token found at the cursor carries the cursor's position, is never end_stmt and has positive length; an error is a lexing error at the cursor |
| Lexer.ScanTokenCovers | ez/lexer/lexer.go:142-188 | a token scanned at an offset covers exactly the text it was read from |
| Lexer.UnexpectedCharacter | ez/lexer/lexer.go:190 | the "Unexpected character" error naming the character arises exactly for a character no recogniser starts with |
| Lexer.LexStep | ez/lexer/lexer.go:114-190 | a newline and nothing else gives an empty-data end_stmt at its position; a blank run is maximal; a token has positive length within the input |
| Lexer.LexStepStuck | ez/lexer/lexer.go:124-190 | the loop stops only at a character that is neither newline nor blank, with the recogniser's own error there |
| Lexer.LexStepCovers | ez/lexer/lexer.go:114-190 | every turn of the loop covers the text it moves over |
| Lexer.StepperAdvances | ez/lexer/lexer.go:114-192 | every turn of the lexing loop that does not stop moves forward within the text, so lexing terminates |
| LexerProperties.AdvanceNoNewline | ez/lexer/lexer.go:135-139 | moving over newline-free text keeps the line and adds its length to the column |
| LexerProperties.ScanAdvances | ez/lexer/lexer.go:124-188 | a newline moves to the next line's column 1, and a blank run or token advances the column by its width |
| LexerProperties.LoopSound | ez/lexer/lexer.go:114-192 | a loop whose every turn covers its text tiles the text from its start offset |
| LexerProperties.TilesOrdered | ez/lexer/lexer.go:142-190 | in a tiling, a later token starts after an earlier one ends |
| LexerProperties.LoopFailure | ez/lexer/lexer.go:114-190 | a failing loop stops at the first stuck state it visits: that state is visited, its error is the loop's, every state visited before it moves on and none is visited after it; a successful loop visits the end of the input and no stuck state |
| LexerProperties.LexSound | ez/lexer/lexer.go:107-194 | on success the tokens, in order, tile the text with only blanks between them, and each spells its own text |
| LexerProperties.LexPlaced | ez/lexer/lexer.go:117-122 | every token, and the error on failure, carries the line and column of its offset |
| LexerProperties.LexTokens | ez/lexer/lexer.go:142-190 | token offsets strictly increase, each token starts at or after the previous one's end, and none is a string literal |
| LexerProperties.LexError | ez/lexer/lexer.go:114-190 | a failure names the first stuck state lexing reaches from offset 0, line 1, column 1: its offset, line and column are a reached state holding neither a newline nor a blank, the token recogniser reports that error there, every reached state before it moves on and none is reached after it; a successful lex reaches no stuck state |
| LexerProperties.LexPositions | ez/lexer/lexer.go:107-194 | every token and every error names the lexed file and an offset inside the text, and errors are lexing errors |
| Ast.ValueTypeFromToken | ez/parser/program.go:23-32 | `int` exactly for integer literals, `var` exactly for identifiers, never a string kind |
| Ast.ValueOf | ez/parser/program.go:34-38 | an operand keeps its token's text and the token itself, with the token's operand kind |
| Ast.TypeDispatch | ez/parser/program.go:45-98 | the tags are pairwise distinct and each variant's `Type()` is its own tag, so dispatch on the tag is unambiguous |
| Parser.MatchFrom | ez/parser/parser.go:15-28 | the window matches from position i on iff every later token's kind is allowed at its position |
| Parser.MatchTokenPattern | ez/parser/parser.go:9-32 | false when the window is shorter than the pattern, otherwise true iff every token's kind is allowed at its position |
| Parser.OperandRun | ez/parser/parser.go:93-96 | the run from i holds only int or identifier tokens and stops at the end or at the first other token |
| Parser.OperandRunEnds | ez/parser/parser.go:93-98 | when an end_stmt follows a run of operands, the run ends exactly at it |
| Parser.MatchCall | ez/parser/parser.go:84-103 | a call window is `call`, an identifier, operands and an end_stmt; the operand run then ends at that end_stmt |
| Parser.MatchCallAsWritten | ez/parser/parser.go:84-103 | the unguarded recogniser fails exactly on a window holding only `call` and otherwise agrees with the guarded one |
| Parser.LoneCallPanics | ez/parser/parser.go:89 | a trailing `call` token makes the recogniser as written read past the tokens |
| Parser.CollectValues | ez/parser/parser.go:224-232 | the operands are one per token, in order, up to the next end_stmt |
| Parser.CollectOperandRun | ez/parser/parser.go:224-232 | collecting up to the end_stmt takes exactly the operand run |
| Parser.CallOperands | ez/parser/parser.go:219-239 | a matched call's operands are exactly its run of int and identifier tokens, and its end_stmt follows them |
| Parser.ParseAt | ez/parser/parser.go:246-288 | a statement built at a position spans at least one token and stays within the tokens |
| ParserProperties.PatternsExclusive | ez/parser/parser.go:34-103 | no window matches two of the nine recognisers, so the order of trial never hides a match |
| ParserProperties.RecognisedLead | ez/parser/parser.go:34-103 | each recogniser needs its own leading token kind, and VarDeclValue and VarDeclExpr part at the fourth token |
| ParserProperties.ParseAtVarDeclValue | ez/parser/parser.go:246-249 | a VarDeclValue window builds the assignment and consumes 4 tokens |
| ParserProperties.ParseAtVarDeclExpr | ez/parser/parser.go:250-253 | a VarDeclExpr window builds the expression assignment and consumes 6 tokens |
| ParserProperties.ParseAtIf | ez/parser/parser.go:254-257 | an if window builds the conditional jump and consumes 7 tokens |
| ParserProperties.ParseAtLabel | ez/parser/parser.go:258-261 | a label window builds the label and consumes 2 tokens |
| ParserProperties.ParseAtShowNum | ez/parser/parser.go:262-265 | a shown window builds ShowNum and consumes 3 tokens |
| ParserProperties.ParseAtShowChar | ez/parser/parser.go:266-269 | a showc window builds ShowChar and consumes 3 tokens |
| ParserProperties.ParseAtInput | ez/parser/parser.go:270-273 | an input window builds Input and consumes 3 tokens |
| ParserProperties.ParseAtGoto | ez/parser/parser.go:274-277 | a goto window builds the jump and consumes 3 tokens |
| ParserProperties.CallValues | ez/parser/parser.go:224-232 | a call's operands are the values of the tokens between its name and its end_stmt |
| ParserProperties.ParseAtCall | ez/parser/parser.go:278-282 | a call window builds the call and consumes 2 + operand-count tokens, leaving its end_stmt for the next turn |
| ParserProperties.ParseAtRecognised | ez/parser/parser.go:246-282 | the parser builds the reference statement of whichever recogniser accepts the window |
| ParserProperties.ParseAtOutcome | ez/parser/parser.go:246-288 | a statement is built iff some recogniser accepts, a lone end_stmt is skipped, and anything else is invalid |
| ParserProperties.PatternOperand | ez/parser/parser.go:38-53 | every operand slot of a pattern holds an int or variable operand |
| ParserProperties.BuiltWellFormed | ez/parser/parser.go:105-239 | every built statement has only int and variable operands and ends its line where the consumed width says |
| ParserProperties.ParseAtWellFormed | ez/parser/parser.go:246-282 | whatever statement the parser builds is well formed in that sense |
| Parser.StepperAdvances | ez/parser/parser.go:245-286 | every turn of the parsing loop moves the cursor forward and stays within the tokens, so parsing terminates |
| ParserProperties.LoopTyped | ez/parser/parser.go:245-286 | a loop whose steps build only typed statements yields only typed statements |
| ParserProperties.LoopError | ez/parser/parser.go:241-292 | the loop fails exactly when it reaches a position the step rejects: the error carries that position, every earlier visited position starts a statement or a blank line, and nothing after it is visited; a successful loop reaches the end and visits no rejected position |
| ParserProperties.ParseResult | ez/parser/parser.go:241-292 | a parsed program has only int and variable operands, every position the parser visits starts a statement or a blank line, up to the end, and its k-th statement is the one `ParseAt` builds at the k-th visited statement position; a failure is "Invalid statement" at the first visited token that no recogniser accepts, with every earlier visited position parsed or skipped |
| ParserProperties.SpotsMembers | ez/parser/parser.go:241-292 | the statement positions from a given offset are exactly the visited positions where the step builds a statement, each once, in increasing order |
| ParserProperties.LoopStatements | ez/parser/parser.go:241-292 | a successful loop returns one statement per visited statement position, in order, each the statement the step builds there; blank lines add none |
| ParserProperties.ParsedPositions | ez/parser/parser.go:241-292 | the visited positions where `ParseAt` builds a statement, each once and in increasing order |
| ParserProperties.ParseStatements | ez/parser/parser.go:241-292 | a parsed program's k-th statement is the one `ParseAt` builds at the k-th visited statement position, and there are as many statements as such positions |
| ParserProperties.ParseTyped | ez/parser/parser.go:241-292 | every statement of a parsed program has only int and variable operands |
| VmState.RegisterFunc | ez/vm/vm.go:175-181 | registering sets that name's entry and leaves every other entry and the rest of the machine alone |
| VmState.New | ez/vm/vm.go:240-504 | a fresh machine has memsize zero cells, only `__memsize` set to memsize, the nine builtins, no program and no jumps; a negative size is the `make` panic |
| VmState.ReadOrZero | ez/vm/vm.go:324 | an absent variable reads as 0, a present one as its value |
| VmState.Resolve | ez/vm/vm.go:30-38 | a literal reads as its base-10 value, a variable as its value, and an absent variable is "variable does not exist" at its token |
| VmState.SetValue | ez/vm/vm.go:29-43 | only the target variable changes, to the operand's value; a failure is the operand's resolution error |
| VmState.Arith | ez/vm/vm.go:70-83 | exactly `+ - * / %` succeed on a non-zero divisor with an int64 result; a zero divisor and any other operator panic |
| VmState.SetValueFromOp | ez/vm/vm.go:45-86 | on success only the target variable is added or changed |
| VmState.Compare | ez/vm/vm.go:114-129 | exactly the six comparison operators succeed; any other panics with "invalid operator" |
| VmState.GoTo | ez/vm/vm.go:142-150 | success iff the label is in the table, moving the index to it; otherwise "label does not exist" at the label's token |
| VmState.Condition | ez/vm/vm.go:88-128 | an unresolvable left operand gives its error; otherwise an unresolvable right operand gives its error; otherwise the result is the comparison of the two values, and an unknown operator panics |
| VmState.IfStmt | ez/vm/vm.go:131-139 | a successful `if` either leaves the machine as it was or moves the index to a label in the table |
| Builtins.DenyStringType | ez/vm/vm.go:230-238 | success iff no operand is a string, and otherwise the error names the first string operand's position |
| Builtins.Arg | ez/vm/vm.go:256 | reading past the operands is an index panic |
| Builtins.Operand | ez/vm/vm.go:320-336 | the unchecked read agrees with resolution wherever resolution succeeds and reads an absent variable as 0 |
| Builtins.Emit | ez/vm/vm.go:266 | printing appends one event and changes nothing else |
| Builtins.ShowCharBuiltin | ez/vm/vm.go:250-269 | `showc` succeeds exactly when no operand is a string literal, an operand exists and it resolves; it then appends the low byte of that value as a character and changes nothing else; otherwise the error is the string-literal error, then the index panic, then the resolve error |
| Builtins.ShowNumBuiltin | ez/vm/vm.go:272-291 | `shown` succeeds exactly when no operand is a string literal, an operand exists and it resolves; it then appends that value as a number and changes nothing else; otherwise the error is the string-literal error, then the index panic, then the resolve error |
| Builtins.InputBuiltin | ez/vm/vm.go:294-312 | `input` succeeds exactly when no operand is a string literal, the first operand is a variable and standard input is not empty; it stores the first input byte in that variable, consumes it, and changes nothing else; otherwise the error is the string-literal error, the index panic, "expected identifier not literal" at the operand, or the EOF panic |
| Builtins.MemSetBuiltin | ez/vm/vm.go:315-341 | `memset` leaves program, jumps and registry alone |
| Builtins.MemGetBuiltin | ez/vm/vm.go:344-371 | `memget` leaves program, jumps and registry alone |
| Builtins.DebugBuiltin | ez/vm/vm.go:374-391 | `debug` always succeeds and appends one line per operand, in order: a string operand prints its text, any other prints its text, kind and value; nothing else changes |
| Builtins.Overwrite | ez/vm/vm.go:438-440 | the copied cells hold the data, every other cell is unchanged, and the length is kept |
| Builtins.ReadFileAsWritten | ez/vm/vm.go:399-445 | `read_file` as written changes neither the world nor the memory size |
| Builtins.ReadFile | ez/vm/vm.go:399-445 | `read_file` with the intended check changes neither the world nor the memory size |
| Builtins.Bytes | ez/vm/vm.go:489-492 | the buffer has the requested length and holds bytes |
| Builtins.WriteFileAsWritten | ez/vm/vm.go:448-500 | `write_file` as written changes only the files |
| Builtins.WriteFile | ez/vm/vm.go:448-500 | `write_file` with the intended check changes only the files |
| Builtins.Invoke | ez/vm/vm.go:172 | no builtin changes the program, the jump table or the registry |
| Executor.FirstMissing | ez/vm/vm.go:162-170 | none iff every variable operand exists, and otherwise the first variable operand that does not |
| Executor.CallFunction | ez/vm/vm.go:152-173 | a call leaves program, jumps and registry alone |
| Executor.BuildJumps | ez/vm/vm.go:186-190 | the pre-pass keeps every entry already in the table |
| Executor.Execute | ez/vm/vm.go:195-222 | no statement changes the program, the jump table or the registry |
| Executor.Step | ez/vm/vm.go:192-225 | a loop turn keeps the program, the jump table and the registry |
| Executor.Exec | ez/vm/vm.go:192-227 | a finished run has left the program's statement range and still runs the same program |
| VmProperties.BuildJumpsKeys | ez/vm/vm.go:186-190 | the pre-pass adds exactly the names of the labels it passes |
| VmProperties.BuildJumpsValues | ez/vm/vm.go:186-190 | each name the pre-pass adds maps to the last label of that name |
| VmProperties.LastLabelExists | ez/vm/vm.go:186-190 | a name with a label from i on has a last such label |
| VmProperties.JumpTable | ez/vm/vm.go:186-190 | the jump table's names are exactly the program's labels, each mapped to the index of its last label |
| VmProperties.GotoStep | ez/vm/vm.go:142-150 | a goto step lands after the label iff the label is known, and otherwise fails with "label does not exist" |
| VmProperties.IfStep | ez/vm/vm.go:88-140 | an if step jumps past the label exactly when the condition holds, otherwise moves on, and a missing label matters only for a taken jump |
| VmProperties.JumpLandsAfterLabel | ez/vm/vm.go:186-224 | after a jump through the running program's table, the statement just before the new index is the label named |
| VmProperties.PassiveStep | ez/vm/vm.go:195-224 | label, ShowNum, ShowChar and Input statements only advance the index |
| VmProperties.AssignStep | ez/vm/vm.go:29-43 | an assignment changes only its target and the index, or fails on a missing variable |
| VmProperties.ArithStep | ez/vm/vm.go:45-86 | the left operand is resolved first, then the right, then the operator applies; only the target and index change |
| VmProperties.PowPanics | ez/vm/vm.go:81-82 | `^`, though parsed, reaches the panic for an invalid operator |
| VmProperties.ArithWraps | ez/vm/vm.go:71-76 | `+ - *` give the exact result modulo 2^64, and the exact result when it fits |
| VmProperties.ArithDivision | ez/vm/vm.go:77-80 | on int64 operands `/` and `%` satisfy Go's division identity, MinInt64 / -1 wrapping to MinInt64 with remainder 0 |
| VmProperties.CompareDuals | ez/vm/vm.go:113-126 | `<` yields `lhs < rhs` and `==` yields `lhs == rhs`; `!=`, `>=` and `<=` are the negations of `==`, `<` and `>`, and `>` is `<` with the operands swapped, so every operator yields its integer comparison |
| VmProperties.CallChecks | ez/vm/vm.go:152-173 | an unknown name fails first, then a wrong count unless the arity is -1, then the first missing validated variable; only a call passing all three runs its handler |
| VmProperties.ValidatedReads | ez/vm/vm.go:162-170 | after validation the handlers' unchecked reads see the variables' values |
| VmProperties.MemSetEffect | ez/vm/vm.go:315-341 | `memset` succeeds iff no operand is a string and the address is a cell, and then changes that cell alone |
| VmProperties.MemGetEffect | ez/vm/vm.go:344-371 | `memget` succeeds iff the address resolves to a cell and the target is a variable, and then sets that variable alone |
| VmProperties.MemRoundTrip | ez/vm/vm.go:315-371 | reading a cell back after `memset` gives the value stored |
| FileProperties.ReadFileEffect | ez/vm/vm.go:399-445 | with well-shaped operands, a missing file fails, and otherwise the copy succeeds iff it fits, placing the bytes at the address and their count in the length variable |
| FileProperties.ReadFileChecksDiffer | ez/vm/vm.go:434 | the check as written and the intended one disagree only on a file ending exactly at the last cell |
| FileProperties.ReadFileExactFit | ez/vm/vm.go:434 | a four-byte file read into a four-cell memory at 0 is refused as written and copied by the intended check |
| FileProperties.WriteFileEffect | ez/vm/vm.go:448-500 | with well-shaped operands the write succeeds iff the range lies in memory, and the file then holds the low bytes of those cells |
| FileProperties.WriteFileChecksDiffer | ez/vm/vm.go:485 | every write the check as written allows, the intended one performs alike; the intended one also writes a range ending at the last cell |
| FileProperties.WriteFileExactFit | ez/vm/vm.go:485 | writing all four cells of a four-cell memory is reported out of bounds as written and performed by the intended check |
| FileProperties.WriteFileNegativeLength | ez/vm/vm.go:485-489 | a negative length passes the check as written and panics when the buffer is made; the intended check reports it |
| RunProperties.NewSane | ez/vm/vm.go:240-504 | a fresh machine over a byte-valued world is well formed |
| RunProperties.OperandFits | ez/vm/vm.go:30-38 | under int64 variables every operand reads as an int64 |
| RunProperties.InputSane | ez/vm/vm.go:294-312 | `input` keeps the machine well formed |
| RunProperties.MemSetSane | ez/vm/vm.go:315-341 | `memset` keeps the machine well formed |
| RunProperties.MemGetSane | ez/vm/vm.go:344-371 | `memget` keeps the machine well formed |
| RunProperties.ReadFileSane | ez/vm/vm.go:399-445 | `read_file` keeps the machine well formed: cells receive bytes and the length fits |
| RunProperties.WriteFileSane | ez/vm/vm.go:448-500 | `write_file` keeps the machine well formed |
| RunProperties.InvokeSane | ez/vm/vm.go:172 | every builtin keeps the machine well formed |
| RunProperties.ExecuteSane | ez/vm/vm.go:195-222 | every statement keeps the machine well formed |
| RunProperties.StepSane | ez/vm/vm.go:192-225 | every loop turn keeps the machine well formed |
| RunProperties.BuildJumpsFit | ez/vm/vm.go:186-190 | the pre-pass only records non-negative statement indices |
| RunProperties.ExecIsDrive | ez/vm/vm.go:192-227 | the dispatch loop is the generic loop over the executor's step |
| RunProperties.DriveSane | ez/vm/vm.go:192-227 | a loop over an invariant-keeping step ends or pauses in a well-formed state, or fails with a step's error from one |
| RunProperties.ExecSane | ez/vm/vm.go:192-227 | from a well-formed machine a run never reaches the negative-index panic, and every failure is the error of a statement run in a well-formed state |
| RunProperties.RunSane | ez/vm/vm.go:183-228 | installing a program and running it keeps a well-formed machine well formed |
| RunProperties.DriveFuelMonotone | ez/vm/vm.go:192-227 | more budget never changes a loop that ended within the budget |
| RunProperties.ExecFuelMonotone | ez/vm/vm.go:192-227 | a run that finished or failed within its budget has the same outcome with any larger budget |
| RunProperties.DriveResumes | ez/vm/vm.go:192-227 | a loop that used up its budget continues from the state where it paused |
| RunProperties.ExecResumes | ez/vm/vm.go:192-227 | running f + k steps is running f steps, then k more from where the run paused |
| RunProperties.ParsedOperandsAccepted | ez/vm/vm.go:230-238 | no call in a parsed program holds a string operand, so `denyStringType` never rejects one |
| RunProperties.FileBuiltinsNeedStrings | ez/vm/vm.go:405-407 | without a string operand `read_file` and `write_file` always fail, so a parsed program can never use them successfully |

## Left out

- `TokenContext.Error` (ez/lexer/token.go:88-117) reads the source file and builds coloured text. Errors are a record of phase, message, hint and position instead.
- ez/lexer/matching.go wraps Go's regular expressions. The four anchored patterns are hand-written recognisers with their longest-match contracts.
- main.go and ez/ez.go handle command-line wiring. They come from another revision of the code.
- The lexer reads Go strings byte by byte; the model reads characters. Every character a token can hold is ASCII, so on the first non-ASCII character both stop at the same offset, line and column. Only the message differs: Go's `string(current)` turns the character's first byte into a rune of its own, so `é` reads "Unexpected character: Ã", while the model names the whole character.
- Printing in `showc`, `shown` and `debug` is recorded as events in an output trace. `fmt` formatting is not modelled.
- `vm_no_input_buffering` runs `stty`. It is a no-op that always succeeds here.
- Standard input is a sequence of bytes. A read error other than end of input is not modelled, and end of input is the panic the handler raises.
- The filesystem is a map from names to byte sequences.
  - A missing file is the only read error modelled. Its message is Go's "no such file or directory" text.
  - Writes always succeed. Permission and I/O errors are not modelled.
- A Go panic does not unwind here. It ends the run with an error of phase `Panic`, and mutations before it are kept, as with any error.
- The VM's `jumps` and `index` are Go `int`s; the model uses unbounded integers. Only a program of more than 2^63 statements could tell the difference.
- Executor.Exec: the dispatch loop runs for at most `fuel` steps. A run still going when the budget is spent ends as `OutOfFuel`, and ExecResumes shows that more budget continues it. Non-termination itself is not modelled.
- Lexer.GetIntLiteral: a hex literal's data is the value of the digits after `0x`, as the conversion evidently intends. The code as written gives "0", as Lexer.HexDataAsWrittenIsZero shows; see Findings.
- Parser.ParseAt: the `call` recogniser rejects a window shorter than two tokens. The code as written indexes past the end of the tokens, as Parser.MatchCallAsWritten and Parser.LoneCallPanics show; see Findings.
- Builtins.Invoke: `read_file` and `write_file` use the intended slice checks. The checks as written are Builtins.ReadFileAsWritten and Builtins.WriteFileAsWritten; see Findings.
- Builtins.ReadFileAsWritten: `address + len(data)` is computed without int64 wrap-around, because no file can be longer than 2^63 bytes.
- VmState.New: the `memsize` argument is an int64. The allocation failure of a huge but valid size is not modelled.

## Findings

| source | as written | input that shows it | evidently intended | confidence | as-written member | corrected member |
|---|---|---|---|---|---|---|
| ez/lexer/lexer.go:34 | the whole hex match, `0x` included, is parsed in base 16, which fails; the discarded error leaves 0 | the literal `0x1A` lexes to data "0" | parse the digits after `0x`, giving "26" | high, not executed | Lexer.HexDataAsWrittenIsZero | Lexical.HexData |
| ez/parser/parser.go:89 | `tokens[1]` is read without a length check | a program whose last token is `call` indexes past the tokens | reject a window shorter than two tokens | high, not executed | Parser.LoneCallPanics | Parser.MatchCall |
| ez/vm/vm.go:434 | `address+len(data) >= len(Memory)` rejects a file that ends exactly at the last cell | a 4-byte file read at address 0 into 4 cells | reject only `address+len(data) > len(Memory)` | high, not executed | FileProperties.ReadFileExactFit | FileProperties.ReadFileEffect |
| ez/vm/vm.go:485 | `address+flen >= len(Memory)` rejects a range ending exactly at the last cell, and a negative length passes to `make` | writing 4 cells from address 0 of a 4-cell memory | reject only `address+flen > len(Memory)` or a negative length | high, not executed | FileProperties.WriteFileExactFit | FileProperties.WriteFileEffect |

The lexer uses the corrected hex conversion. The parser uses the guarded `call` recogniser. `Builtins.Invoke` runs the corrected `read_file` and `write_file`.
