# A verified model of a one-pass 6502 assembler

This project models the core of a small Python assembler for the MOS 6502. The
assembler reads a source file and rewrites it with three regular-expression
substitutions:

- it splits `label: instr` onto two lines;
- it puts a `, ` between a jump or branch mnemonic and its target;
- it removes `//` and `/* */` comments.

It then drops blank lines. For each remaining line it:

- removes spaces and control characters and upper-cases the rest (`clean_line`);
- scans the line with an ordered list of token patterns (`tokenize`);
- picks the first addressing mode whose grammar equals the line's token kinds (`evaluate_line`).

The main loop keeps a program counter, an append-only label list, an option
dictionary and the output byte stream. Each line is one of:

- an option directive;
- a label declaration;
- a jump to a label, rewritten through the labels seen so far;
- an instruction, encoded as an opcode byte plus an 8-bit operand, a little-endian 16-bit operand, or a signed branch displacement.

Modules, one per part of the program:

- `Wrappers`: `Option` and `Result`.
- `Chars`: the character classes the patterns use (ASCII letters and digits, `\s`, the `splitlines` breaks) and greedy repetition (`Span`).
- `Include`: `include.py`. The addressing modes and their names, the token kinds, the grammar table, the initial option registry, the exit behaviour of `error`, and the fatal errors of a run.
- `Lexer`: `clean_line`, the token patterns and their alternation (`regex.py` is the same list), the scan as a function, and `tokenize` as a method with a loop.
- `Resolver`: the `literal_position`, `size_in_bytes` and `arg_types` tables, `compile_token_types` (a method), and `evaluate_line`.
- `ValueLiteral`: `strip_value_literal`, `evaluate_value_literal`, `convert_value_literal` (`value_literal.py`, and the same functions in `assembler.py`), and the `format(n, '04X')` text of a resolved label.
- `Preprocessor`: the three substitutions as explicit scanners, `splitlines`, and the blank-line filter.
- `Assembler`:
  - the per-line step and the loop as specification functions (`Step`, `Loop`, `Exec`);
  - the class `Assembler`, whose fields are the program's loop variables and whose methods are proved against those functions;
  - `AssembleProgram`, from the source text to the output bytes.
- `Scenarios`: the line `lda #$01` followed through every stage.

The instruction table (`tables.instruction_info`) is not part of the source. It
is a parameter: a map from mnemonic to a list of rows (addressing mode, opcode
byte, documented flag).

A fatal condition ends the run with the bytes written so far. It is either an
`error(..., crash=True)` call (status 255) or an uncaught Python exception
(status 1).

## Model

| member | source | states |
|---|---|---|
| Include.ModeValue | include.py:27-42 | the value of a mode is its 1-based place in declaration order, between 1 and 15 |
| Include.ModeValuesAreOneToFifteen | include.py:27-42 | the fifteen modes have the distinct values 1..15 |
| Include.ModeName | include.py:44-60 | `Addr_Modes_Strings[value - 1]` is the enum member's own name, which is how diagnostics name a mode |
| Include.GrammarsEndWithEof | include.py:83-100 | every grammar has at least two kinds, ends with EOF and holds EOF nowhere else |
| Include.GrammarsDistinctExceptIndexPairs | include.py:83-100 | two different modes have equal grammars exactly when they are the X/Y-indexed absolute pair or the X/Y-indexed zero-page pair |
| Include.InitialOptionsShape | include.py:77-80 | the registry starts with exactly the two named keys, both false |
| Include.Error | include.py:14-17 | `error` exits exactly when `crash` is set, and then with status `-code` |
| Include.ProcessStatus | include.py:17 | the status a parent sees is the exit argument modulo 256 |
| Include.ErrorDefaults | include.py:14-17 | with the defaults `error` returns normally; a crashing call exits with -1, seen as 255 |
| Include.ExitStatus | include.py:14-17 | an aborted run ends with status 255 exactly for the two `error(..., crash=True)` conditions, otherwise 1 |
| Chars.ToUpper | assembler.py:114 | upper-casing leaves no lower-case letter, maps lower to upper and keeps every other character |
| Chars.UpperString | assembler.py:114 | `upper()` keeps the length and upper-cases each character in place |
| Chars.Span | regex.py:7-15 | a greedy repetition stops at the end of the text or at the first character outside the class |
| Chars.SpanInClass | regex.py:7-15 | every character a greedy repetition consumes is in its class |
| Chars.SpanOfRun | regex.py:7-15 | a run of the class that ends the text or is followed by a character outside the class is exactly what a greedy repetition consumes |
| Lexer.CleanLine | assembler.py:113-114 | the cleaned line is no longer than the input and holds no space, control character or lower-case letter |
| Lexer.CleanLineFixpoint | assembler.py:113-114 | `clean_line` leaves a line unchanged if and only if the line is already clean |
| Lexer.CleanLineIdempotent | assembler.py:113-114 | cleaning twice equals cleaning once |
| Lexer.CleanLineIgnoresCase | assembler.py:113-114 | upper-casing a line first does not change what `clean_line` returns |
| Lexer.CleanLineHasNoNewline | assembler.py:113-114 | a cleaned line holds no newline and no lower-case letter |
| Lexer.Single | regex.py:6 | a one-character class consumes one character exactly when that character is next |
| Lexer.NumberMatch | regex.py:7-8 | the literal patterns stay within the line |
| Lexer.OptMatch | regex.py:5 | `\bOPT\b` consumes nothing or exactly three characters |
| Lexer.OptionNameMatch | regex.py:15 | the option-name pattern stays within the line |
| Lexer.AnyMatch | regex.py:16 | `.` consumes at most one character |
| Lexer.PatternMatch | regex.py:4-17 | each pattern, looked up by its token kind, stays within the line |
| Lexer.MatchFrom | regex.py:19-20 | the search through the pattern list returns a later pattern with a non-empty match inside the line |
| Lexer.MatchFromIsFirst | regex.py:19-20 | the search returns the first pattern in list order that matches, with that pattern's length; no match means no pattern matches |
| Lexer.MatchFromIs | regex.py:19-20 | if pattern j matches and no earlier one does, the search returns j |
| Lexer.MatchFromNone | regex.py:19-20 | if no pattern matches, the search returns nothing |
| Lexer.MatchFromStep | regex.py:19-20 | the search takes pattern `from` when it matches and otherwise moves on to the next pattern |
| Lexer.Alternation | assembler.py:110-111 | the combined pattern matches a non-empty piece, and fails exactly at the end of the line or at a newline |
| Lexer.AlternationIsFirstMatch | regex.py:19-20 | the combined pattern equals the first-match search over the list order |
| Lexer.AlternationTail | regex.py:10-16 | once OPT, HASH, both literal patterns and MNEMONIC have failed, the combined pattern is the search from the bracket pattern on |
| Lexer.AlternationIsFirst | regex.py:19-20 | the winning kind is the first pattern in list order that matches, and the token has that pattern's length |
| Lexer.ScanStep | assembler.py:151-154 | one scan step emits the winning piece as a token and goes on after it |
| Lexer.ScanSkip | assembler.py:151 | at a newline, which no pattern matches, the scan emits nothing and moves one place on |
| Lexer.ScanCons | assembler.py:151-154 | anywhere else it emits the token found there, whose value is the matched text, and resumes after it |
| Lexer.ScanAll | assembler.py:151-154 | a property of the token found at every non-newline position holds of every scanned token |
| Lexer.NextMatch | assembler.py:151-154 | one match moves strictly forward within the line and moves one token from the rest of the scan to the collected list |
| Lexer.Tokenize | assembler.py:148-156 | the loop over the matches builds exactly the token list of the scan, followed by EOF |
| Lexer.AlternationByFirstChar | assembler.py:15-28 | the alternation equals a winner chosen by the first character, which gives the priorities OPT before MNEMONIC and 16-bit before 8-bit literals |
| Lexer.DigitLiteralShape | regex.py:7 | at a digit the 16-bit literal pattern matches, so digit runs never become 8-bit literals |
| Lexer.WinnerWellFormed | regex.py:4-17 | at every position that is not a newline some pattern wins, and its token has the shape of its kind |
| Lexer.TokenAtWellFormed | regex.py:4-17 | every token the alternation produces is well formed: 8-bit literals are `$` plus two hex digits, option names are `__` plus letters or hyphens, UNKNOWN is one other character |
| Lexer.ScanWellFormed | assembler.py:151-154 | every scanned token is well formed and none is EOF |
| Lexer.TokensShape | assembler.py:148-156 | the token list ends with exactly one EOF token, and every other token is well formed and non-empty |
| Lexer.ScanConcat | assembler.py:151-154 | on a newline-free line the scanned token values concatenate back to the line |
| Lexer.TokensRebuildLine | assembler.py:148-156 | without the final EOF, the tokens concatenate back to the line |
| Lexer.ScanHeadNotMnemonic | assembler.py:20 | a scan that starts at a non-letter does not start with a mnemonic |
| Lexer.ScanNoAdjacentMnemonics | assembler.py:20 | no two adjacent scanned tokens are both mnemonics |
| Lexer.MnemonicEndsRun | regex.py:9 | a mnemonic token takes the whole run of letters, so the next character is not a letter |
| Lexer.CleanTokensNoAdjacentMnemonics | assembler.py:33 | on a cleaned line no two adjacent tokens are mnemonics, so the ACCUMULATOR grammar cannot match |
| Lexer.DigitLiteralOnUppercaseLine | regex.py:7 | on an upper-cased line a digit starts a literal of the next one to five digits, so the lower-case `0x`/`0b` forms never fire |
| Lexer.TokenAtUppercaseLiteral | assembler.py:18 | on an upper-cased line a 16-bit literal is `$` plus four hex digits or one to five decimal digits |
| Lexer.ScanUppercaseLiterals | assembler.py:18 | the same holds for every token of the scan |
| Resolver.WidthMatchesLiteralSlot | assembler.py:50-102 | a mode with a literal slot has width 8 exactly when that slot holds an 8-bit literal and 16 exactly when it holds a 16-bit one; a mode without a slot has width 0 unless it is a jump to a label |
| Resolver.SizeIsOpcodePlusOperand | assembler.py:68-102 | every real mode's size is one opcode byte plus its operand width in bytes |
| Resolver.KindsAt | assembler.py:158-162 | the kind list has one entry per token, the token's kind |
| Resolver.CompileTokenTypes | assembler.py:158-162 | the loop returns the kind of each token, in order |
| Resolver.FirstModeFromIsFirst | assembler.py:166-167 | the search returns the first mode at or after the start whose grammar equals the kinds, or none if there is none |
| Resolver.FirstModeIsFirst | assembler.py:166-167 | the same search from the first mode, stated over modes: none exactly when no grammar equals the kinds, otherwise a mode whose grammar equals them with no earlier mode doing so |
| Resolver.FirstMode | assembler.py:166-167 | the mode found has a grammar equal to the kinds and no earlier mode does; none is found exactly when no grammar equals them |
| Resolver.EvaluateLine | assembler.py:165-182 | a line resolves to the first mode in declaration order whose grammar equals its kinds; with no such mode it is the fatal unknown-addressing-mode error carrying the line number |
| Resolver.Extract | assembler.py:168-179 | the extracted tuple carries the matched mode and that mode's width |
| Resolver.YIndexedUnreachable | assembler.py:36-41 | the Y-indexed absolute and zero-page modes are never returned |
| Resolver.EvaluateLineExtracts | assembler.py:168-179 | the extraction rules: the literal slot's token and width; empty for IMPLIED and ACCUMULATOR; the token before EOF for an option; the first token for a label; the third token with width 16 for a jump |
| Resolver.ExtractFollowsGrammar | assembler.py:168-179 | for tokens whose kinds follow a mode's grammar, each field comes from the slot that grammar declares |
| Resolver.FakedJumpIsAbsolute | assembler.py:252-253 | the faked mnemonic, 16-bit literal, EOF tokens resolve to ABSOLUTE with that literal and width 16 |
| Resolver.AccumulatorUnreachable | assembler.py:33 | no cleaned and scanned line ever resolves to ACCUMULATOR |
| ValueLiteral.StripValueLiteral | value_literal.py:1-12 | at most one marker is removed, a two-character prefix, one leading or one trailing character; the text is unchanged exactly when it carries no marker |
| ValueLiteral.EvaluateValueLiteral | value_literal.py:14-28 | the base is 2, 10 or 16, and None exactly when there is no marker |
| ValueLiteral.NoBaseIffNothingStripped | value_literal.py:1-28 | finding no base and stripping nothing happen together |
| ValueLiteral.DigitsValueBound | value_literal.py:30-31 | n digits of a base spell a number below base^n |
| ValueLiteral.ConvertValueLiteral | value_literal.py:30-31 | conversion fails with no base; with a base it succeeds exactly on a non-empty run of that base's digits, and the value is below base^length |
| ValueLiteral.BareDigitsFail | value_literal.py:26-27 | a literal of bare decimal digits has no base and fails to convert |
| ValueLiteral.DollarTen | value_literal.py:8-9 | `$10` converts to 16 |
| ValueLiteral.ZeroXTen | value_literal.py:6-7 | `0X10` converts to 16 |
| ValueLiteral.TenH | value_literal.py:10-11 | `10H` converts to 16 |
| ValueLiteral.SixteenInHex | value_literal.py:6-9 | `$10`, `0X10` and `10H` convert to 16 |
| ValueLiteral.SixteenInDecimal | value_literal.py:24-27 | `16D` converts to 16 while `16` fails for lack of a base |
| ValueLiteral.BinarySixteen | value_literal.py:30-31 | `00010000` is a run of binary digits worth 16 |
| ValueLiteral.SixteenInBinary | value_literal.py:20-21 | `0B00010000` converts to 16 |
| ValueLiteral.LiteralOf | value_literal.py:1-31 | when the base found is b and the stripped text is a non-empty run of base-b digits, the literal converts to the value those digits spell |
| ValueLiteral.BinaryPrefix | value_literal.py:6-21 | for any text d, `0B` or `0b` followed by d strips to d and has base 2 |
| ValueLiteral.HexPrefix | value_literal.py:6-23 | for any text d, `0X`, `0x` or `$` followed by d strips to d and has base 16 |
| ValueLiteral.SuffixMarker | value_literal.py:6-25 | a trailing `H`/`h` gives base 16 and a trailing `D`/`d` base 10, and the suffix is stripped with the rest kept, whenever no `0B`/`0X` prefix or leading `$` comes first |
| ValueLiteral.PrefixValue | value_literal.py:1-31 | a `0B`/`0b` prefix followed by binary digits, or a `0X`/`0x`/`$` prefix followed by hex digits, converts to the value the digits spell |
| ValueLiteral.SuffixValue | value_literal.py:1-31 | hex digits with `H`/`h`, or decimal digits with `D`/`d`, convert to the value the digits spell when no prefix marker comes first |
| ValueLiteral.OneDHex | value_literal.py:30-31 | `1D` in base 16 is 29 |
| ValueLiteral.PrefixBeforeSuffix | value_literal.py:6-21 | `0BEH` is read as the binary digits `EH` and fails, because the prefix is tried before the suffix |
| ValueLiteral.ZeroXBeforeDecimalSuffix | value_literal.py:20-25 | `0X1D` converts to 29: the `0X` prefix wins over the `D` suffix |
| ValueLiteral.DollarBeforeDecimalSuffix | value_literal.py:8-25 | `$1D` converts to 29: the `$` wins over the `D` suffix |
| ValueLiteral.HexDigitChar | assembler.py:252 | the hex digit written for d reads back as d |
| ValueLiteral.HexText | assembler.py:252 | the hex text is non-empty and all hex digits |
| ValueLiteral.Format04X | assembler.py:252 | the `04X` text has at least four hex digits |
| ValueLiteral.HexTextValue | assembler.py:252 | the hex text reads back as the number |
| ValueLiteral.Format04XValue | assembler.py:252 | the padded text reads back as the number and has exactly four digits below 0x10000 |
| ValueLiteral.DollarHexRoundTrip | assembler.py:252 | `$` plus the `04X` text of any offset converts back to that offset |
| Preprocessor.LabelSplitAt | assembler.py:227 | a label split found has its colon and its letter after the start and inside the text |
| Preprocessor.LabelStep | assembler.py:227 | each step of the label rewrite moves forward |
| Preprocessor.LabelSplitExample | assembler.py:227 | in `loop: DEX` the label ends at the colon at 4 and the instruction's letter is at 6 |
| Preprocessor.LabelPieceNewline | assembler.py:227 | the newline inserted between the colon and the letter is the only change in the rewritten piece |
| Preprocessor.LabelStepInsertsOnlyNewline | assembler.py:227 | one step of the label rewrite adds nothing but newlines |
| Preprocessor.SplitLabelsInsertsOnlyNewlines | assembler.py:227 | the label rewrite changes the text only by inserted newlines |
| Preprocessor.SplitLabelsNeedsColon | assembler.py:227 | a text without a colon is left unchanged |
| Preprocessor.LabelShapeChars | assembler.py:227 | a text that starts with a word, a colon, whitespace and a letter has word characters, then the colon, then whitespace, then the letter |
| Preprocessor.LabelSplitAtShape | assembler.py:227 | the label pattern matches all of a leading word, colon, whitespace and letter: the colon and letter positions are those of the text |
| Preprocessor.SplitLabelsAtMatch | assembler.py:227 | where the pattern matches at the start, the rewrite emits the word and colon, a newline, the whitespace and letter, and resumes after the letter |
| Preprocessor.SplitLabelsSplits | assembler.py:227 | for every text that starts with a word, a colon, whitespace and a letter, the output starts with the word, `:`, a newline, the same whitespace and the letter, followed by the rewrite of the rest |
| Preprocessor.SplitLabelsExample | assembler.py:227 | `loop: DEX` becomes `loop:` and ` DEX` on the next line, with the space kept |
| Preprocessor.JumpTargetAt | assembler.py:229 | a jump target found starts after the three-letter mnemonic and lies inside the text |
| Preprocessor.JumpStep | assembler.py:229 | each step of the jump rewrite moves forward |
| Preprocessor.JumpPieceSpacing | assembler.py:229 | replacing the spaces between the mnemonic and its target by `, ` changes only spaces and commas |
| Preprocessor.JumpStepChangesOnlySpacing | assembler.py:229 | one step of the jump rewrite changes nothing but spaces and commas |
| Preprocessor.SeparateJumpsChangesOnlySpacing | assembler.py:229 | the jump rewrite changes the text only in spaces and commas |
| Preprocessor.SeparateJumpsNeedsMnemonic | assembler.py:229 | a text holding none of the ten mnemonics is left unchanged |
| Preprocessor.JumpShapeChars | assembler.py:229 | a text that starts with a jump mnemonic, whitespace and a word has the mnemonic's three word characters, then whitespace, then word characters |
| Preprocessor.JumpTargetAtShape | assembler.py:229 | the jump pattern matches a leading mnemonic, non-empty whitespace and a whole word: the target is exactly that word |
| Preprocessor.SeparateJumpsAtMatch | assembler.py:229 | where the pattern matches at the start, the rewrite emits the mnemonic, `, ` and the target, and resumes after the target |
| Preprocessor.SeparateJumpsSeparates | assembler.py:229 | for every text that starts with one of the ten mnemonics, non-empty whitespace and a whole word, the output starts with the mnemonic, `, ` and the word, followed by the rewrite of the rest |
| Preprocessor.SeparateJumpsExample | assembler.py:229 | `JMP loop` becomes `JMP, loop` |
| Preprocessor.SeparateJumpsIsCaseSensitive | assembler.py:229 | `jmp loop` is left unchanged, because the rewrite only matches upper-case mnemonics |
| Preprocessor.SeparateJumpsSkipsDollar | assembler.py:229 | `JMP $C000` is left unchanged, because a `$` operand is not a word |
| Preprocessor.LineEnd | assembler.py:230 | a line comment runs to the next newline or the end of the text |
| Preprocessor.CommentClose | assembler.py:230 | the block-comment close found is a `*/` at or after the search start |
| Preprocessor.CommentStep | assembler.py:230 | each step of comment removal either drops text or keeps exactly one character |
| Preprocessor.StripCommentsDeletes | assembler.py:230 | comment removal only deletes: its output is a subsequence of its input |
| Preprocessor.StripCommentsNeedsSlash | assembler.py:230 | a text without `/` is left unchanged |
| Preprocessor.StripCommentsLeavesNoLineComment | assembler.py:230 | no `//` is left after comment removal, even where removing a block comment joins two slashes |
| Preprocessor.StripCommentsKeepsOne | assembler.py:230 | a character other than `/` is kept and the scan moves on by one |
| Preprocessor.StripCommentsKeepsPlain | assembler.py:230 | a stretch with no `/` passes through unchanged |
| Preprocessor.LineEndOfRun | assembler.py:230 | `[^\n]*` consumes exactly a run of non-line-feed characters up to a line feed or the end |
| Preprocessor.CommentCloseOfRun | assembler.py:230 | the lazy block pattern closes at the first `*/` after the opening |
| Preprocessor.LineCommentChars | assembler.py:230 | the characters of a text that starts with slash-free text, `//` and the rest of a line |
| Preprocessor.StripLineComment | assembler.py:230 | for every text that starts with slash-free text x, `//` and line text c, followed by a line feed or the end, the output is x followed by the removal resumed at the line feed |
| Preprocessor.BlockCommentChars | assembler.py:230 | the characters of a text that starts with slash-free text and a closed block comment |
| Preprocessor.StripBlockComment | assembler.py:230 | for every text that starts with slash-free text x, `/*`, text c holding no `*/`, and `*/`, the output is x followed by the removal resumed after the closing |
| Preprocessor.StripLineCommentExample | assembler.py:230 | `NOP // done` keeps `NOP ` |
| Preprocessor.StripBlockCommentExample | assembler.py:230 | `/**/NOP` becomes `NOP` |
| Preprocessor.UnclosedCommentKept | assembler.py:230 | an unclosed `/*` is kept, because the non-greedy block pattern needs its `*/` |
| Preprocessor.BreakAt | assembler.py:230 | a line runs up to the first line-break character or to the end of the text |
| Preprocessor.SplitLinesPieces | assembler.py:230 | the lines of a text without `//` hold no line break and no `//` |
| Preprocessor.SplitLinesCons | assembler.py:230 | for any x with no line break, any break character b and any t, `splitlines` of x, b, t is x followed by the lines of t |
| Preprocessor.SplitLinesLast | assembler.py:230 | a non-empty text with no line break is a single line |
| Preprocessor.NonBlankKeeps | assembler.py:230 | the blank-line filter keeps only lines that are not blank, and any property every line had |
| Preprocessor.NonBlankKeepsInk | assembler.py:230 | dropping blank lines loses no non-space character |
| Preprocessor.SplitLinesKeepsInk | assembler.py:230 | splitting into lines loses no non-space character |
| Preprocessor.PreprocessLines | assembler.py:227-230 | every preprocessed line is non-blank and holds no line break and no `//` |
| Preprocessor.PreprocessKeepsInk | assembler.py:227-230 | the kept lines hold every non-space character of the comment-free text, in order |
| Assembler.IsMnemonicIsMembership | assembler.py:104-108 | `is_mnemonic` holds exactly when the mnemonic is one of the candidates |
| Assembler.SignedByteRoundTrip | assembler.py:276 | packing an offset in -128..127 as a signed byte and reading it back gives the offset |
| Assembler.LittleEndian16RoundTrip | assembler.py:283 | a 16-bit value is written as two bytes, low then high, that add back up to it |
| Assembler.FirstLabel | assembler.py:249-253 | the offset found belongs to the first label with that name; none exactly when no label has it |
| Assembler.ModeIndexFrom | assembler.py:256-261 | a row found holds the mode being looked up |
| Assembler.ModeIndexFromIsFirst | assembler.py:256-261 | the row found is the first with the mode; none means no row has it |
| Assembler.ModeIndex | assembler.py:255-263 | the index found is inside the row list and that row has the mode |
| Assembler.ExtractShape | assembler.py:165-179 | lexed tokens matching a grammar give a tuple whose width is the mode's, with letter-run label names and `__` option names |
| Assembler.RepresentShape | assembler.py:236-237 | every resolved source line has that shape |
| Assembler.KeepTemporaryFilesUnsettable | assembler.py:238-240 | no option line names `_KEEP_TEMPORARY_FILES`, because option names start with two underscores |
| Assembler.ResolveJumpUnmatched | assembler.py:248-254 | with no label of that name the jump line is left as it was, still JUMP_LABEL |
| Assembler.ResolveJumpIsFirstLabel | assembler.py:248-253 | with plain label names, the loop without `break` ends with the rewrite from the first label of that name: ABSOLUTE, `$` plus the offset in at least four upper-case hex digits, width 16 |
| Assembler.ResolveJumpShape | assembler.py:248-253 | a resolved jump keeps the tuple shape and is either unchanged or ABSOLUTE |
| Assembler.ResolvedJumpOperand | assembler.py:271 | the operand text of a resolved jump converts back to the label's offset |
| Assembler.OptionLine | assembler.py:238-244 | an option line sets its name to true, inserting an unknown name, and changes nothing else |
| Assembler.LabelLine | assembler.py:245-247 | a label line appends (name, program counter) to the labels and changes nothing else |
| Assembler.InstructionStep | assembler.py:235-284 | an instruction line that is not a jump to a label is encoded exactly as resolved |
| Assembler.JumpLine | assembler.py:248-254 | a jump line is encoded as the rewrite from the first earlier label of its name, or unchanged when none matches |
| Assembler.EncodeFrame | assembler.py:254-284 | encoding leaves labels and options alone and only extends output, messages and program counter |
| Assembler.EncodeOperandFrame | assembler.py:270-284 | writing the operand only extends output, messages and program counter |
| Assembler.OperandWarnings | assembler.py:272-275 | writing the operand adds no message or exactly the branch-range message |
| Assembler.StepKeepsValid | assembler.py:245-246 | one line keeps every recorded label name plain |
| Assembler.LoopKeepsValid | assembler.py:235-284 | a step that keeps label names plain keeps them plain over the loop |
| Assembler.ExecValid | assembler.py:235-284 | label names stay plain throughout a run |
| Assembler.StepGrows | assembler.py:235-284 | one line never lowers the program counter nor removes labels, output bytes or messages |
| Assembler.LoopGrows | assembler.py:235-284 | over a loop of such steps, a later state extends an earlier one |
| Assembler.ExecGrows | assembler.py:235-284 | in a run, the state after more lines extends the state after fewer |
| Assembler.LoopAbortSticks | assembler.py:235-284 | after a fatal line, nothing more happens |
| Assembler.ResolveJumpErrorLine | assembler.py:253 | a failed jump rewrite reports its own line number |
| Assembler.EncodeErrorLine | assembler.py:254-284 | an encoding failure reports the line number of its line |
| Assembler.StepErrorLine | assembler.py:237-284 | a fatal line reports its own 1-based number |
| Assembler.LoopErrorLine | assembler.py:235-237 | a run stopped within n lines reports a line between 1 and n |
| Assembler.ExecErrorLine | assembler.py:235-237 | the same for the assembler's own step |
| Assembler.StepIgnoresCase | assembler.py:236 | upper-casing a line does not change what it does |
| Assembler.EncodeOpcode | assembler.py:254-267 | an unknown mnemonic and a mode missing from its rows are fatal with nothing written; otherwise the first row's opcode is appended |
| Assembler.UndocumentedWarning | assembler.py:264-265 | the warning fires exactly for a row marked documented while the option is present and false, so with the initial options it fires on every documented row and setting the option silences it |
| Assembler.EncodeOperandBytes | assembler.py:270-284 | the operand is one signed byte for a branch, one byte for width 8 and two little-endian bytes for width 16; it is fatal exactly when it does not fit; the counter moves by the mode's size |
| Assembler.BranchMessage | assembler.py:273-275 | the range message is added exactly when the offset is below -127 or the target is above 128, and it does not stop the line |
| Assembler.BranchMessageOnReachableTarget | assembler.py:274-275 | a target of 129 from position 100 is reachable yet draws the range message |
| Assembler.BranchWritesTwoAdvancesThree | assembler.py:272-278 | a branch line writes two bytes but moves the counter by three |
| Assembler.DecimalOperandFails | assembler.py:271 | a bare decimal operand stops the run after its opcode has been written |
| Assembler.EncodeSize | assembler.py:255-284 | an encoded line moves the counter by its mode's size, which equals the bytes written except for branches |
| Assembler.InstructionLineSize | assembler.py:235-284 | the same, for a whole source line after the jump rewrite |
| Assembler.DollarHexValue | assembler.py:271 | a `$` literal of w hex digits converts to a value below 16^w |
| Assembler.LiteralSlotFits | assembler.py:279-283 | a lexed operand either has no base or fits its width, 8-bit below 256 and 16-bit below 0x10000 |
| Assembler.LiteralTokenFits | assembler.py:279-283 | a literal token of an upper-cased line has no base or converts to a value below 256 (8-bit) or 0x10000 (16-bit) |
| Assembler.LexedOperandsFit | assembler.py:276-283 | on lexed lines other than jumps to a label, only a branch can fail for an out-of-range operand |
| Assembler.JumpOperandFits | assembler.py:248-283 | a jump line fails for an out-of-range operand only when its first label is a branch target or lies at 0x10000 or above (its `$` literal then has five or more digits), or when no label matched and the table has a jump-label row; a non-branch resolved to a label at 0x10000 or above always fails when the table has an absolute row |
| Assembler.ExecNext | assembler.py:235 | while running, the next line is one more step |
| Assembler.ExecAbortSticks | assembler.py:235-284 | once aborted, the run's final outcome is that abort |
| Assembler.Assembler.constructor | assembler.py:232-233 | a new assembler starts at position 0 with no labels, no output and the initial options |
| Assembler.Assembler.ResolveLabels | assembler.py:248-253 | the label loop computes the rewrite of the jump line |
| Assembler.Assembler.FindModeIndex | assembler.py:255-263 | the loop over the rows finds the first row with the mode |
| Assembler.Assembler.AssembleLine | assembler.py:236-284 | the fields after one line, and its error, are the step function's outcome |
| Assembler.Assembler.AssembleNext | assembler.py:235-284 | one pass of the loop body leaves the fields and the error as the run over one more line |
| Assembler.Assembler.EncodeInstruction | assembler.py:254-284 | the fields after encoding, and its error, are the encoding function's outcome |
| Assembler.Assembler.EncodeValue | assembler.py:270-284 | the fields after writing the operand, and its error, are the operand function's outcome |
| Assembler.Assembler.Assemble | assembler.py:235-284 | the loop over the lines ends in the run's outcome, stopping at the first fatal line |
| Assembler.AssembleProgram | assembler.py:225-284 | from the source text: the output bytes and the error are those of the run over the preprocessed lines |
| Scenarios.LdaClean | assembler.py:114 | `lda #$01` cleans to `LDA#$01` |
| Scenarios.LdaTokens | assembler.py:148-156 | `LDA#$01` scans to MNEMONIC, HASH, LITERAL_8BIT `$01`, EOF |
| Scenarios.LdaScan | assembler.py:151-154 | the scan of `LDA#$01` is the mnemonic, the hash and the literal |
| Scenarios.LdaScanHash | assembler.py:151-154 | from place 3 the scan is the hash and the literal |
| Scenarios.LdaMnemonic | regex.py:5-9 | at place 0 OPT, HASH and both literal patterns fail and MNEMONIC takes `LDA` |
| Scenarios.LdaLiteral | regex.py:7-8 | at place 4 the 16-bit pattern fails on two hex digits and the 8-bit one takes `$01` |
| Scenarios.LdaMode | assembler.py:165-170 | those tokens resolve to IMMEDIATE with literal `$01` and width 8 |
| Scenarios.LdaRepresent | assembler.py:236-237 | the source line resolves to that tuple |
| Scenarios.Dollar01 | value_literal.py:8-9 | `$01` converts to 1 |
| Scenarios.EncodeLda | assembler.py:254-283 | with LDA immediate at A9 the line writes A9 01, moves the counter to 2, and warns because the row is documented |
| Scenarios.LoadImmediate | assembler.py:235-284 | the whole loop body for `lda #$01` as line 1 |

## Left out

- Command-line handling and file input and output (assembler.py:200-225) are outside the model. `AssembleProgram` takes the text of the input file and returns the bytes written.
- The printed text of messages is not modelled. Warnings and the non-fatal branch-range message are recorded as values in a list.
- `tables.instruction_info` is not part of this model. It is a parameter of the run.
- Opcodes are typed as bytes, so the exception path for an opcode that cannot be packed (assembler.py:266-269) does not arise.
- The unknown-option warning (assembler.py:241-242) cannot fire, because dict assignment never raises `KeyError`. `Assembler.OptionLine` proves the name is inserted instead.
- The `TUPLE_*` and `TABLE_*` index constants (include.py:4-12) are replaced by record fields, which are distinct by construction.
- The `Token` class's `__str__` and `help_defs.py` are printing only and are left out.
- Characters outside ASCII are simplified:
  - `\w`, `\d`, letters and `str.upper()` are restricted to ASCII;
  - `clean_line` drops only the Cc category (0-31 and 127-159), where Python drops every category-C character. Format characters such as U+FEFF (a byte-order mark) and U+00AD (a soft hyphen), surrogates, private-use and unassigned code points are kept. Such a character becomes an unknown token, so the line matches no grammar. A file that starts with a byte-order mark therefore aborts with `UnknownAddressingMode(1)` in the model, while Python assembles it;
  - `\s` and the `splitlines` breaks follow Python's own sets.
- Python's `int()` leniency is not modelled: signs, surrounding whitespace, underscores and an embedded `0x`. Conversion accepts a plain run of digits of the base and fails otherwise.
- No general regular-expression engine is modelled. Each pattern and each of the three substitutions is an explicit scanner with the same matching order and greed.
- Preprocessor.SplitLines: a `\r\n` pair is taken as two breaks, so an empty line appears between them. Python's `splitlines` sees one break. The blank-line filter removes that empty line, so the kept lines are the same.
- Assembler.ResolveJumpIsFirstLabel: the first-label result is proved for states whose label names do not start with `$`, which every state reached by a run satisfies (`Assembler.ExecValid`). For arbitrary label lists the loop without `break` could chain through a rewritten operand.
- Scenarios: only one concrete line is followed end to end. The multi-line behaviour is stated by the general lemmas.
