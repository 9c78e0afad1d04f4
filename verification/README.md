# A Dafny model of a Rust Lox front end and evaluator

This project models the core of a Rust implementation of Lox, the small
dynamically typed language of *Crafting Interpreters*. It covers five parts.

- **The scanner.** `src/scanner.rs`, and the older copy of it in `src/main.rs`.
- **The recursive-descent parser.** `src/parser.rs`.
- **The variable store.** `src/environment.rs`.
- **The tree-walking evaluator.** `src/interpreter.rs`.
- **Shared data.** `src/common.rs`, and the helpers and `ast_print` of `src/utils.rs`.

Every operation is a pure function over immutable datatypes.

- **Cursor state.** The scanner's and parser's cursor state (`start`, `curr`, `line`, `current`) is threaded explicitly.
- **Printed output.** What the source prints is kept in the state: the parser's diagnostics and the values `print` writes.
- **Three outcomes.** `Outcome` (`wrappers.dfy`) distinguishes three ends:
  - a Rust `Ok`;
  - a Rust `Err`;
  - a panic (an `unwrap` on `Err`, an explicit `panic!`, an `i64` overflow, a stack overflow).
- **One scanner, two dialects.** The two scanners differ only in the bitwise operators `&` and `|` and in how keywords are looked up. They are one function with a `Dialect` switch: `Current` is `src/scanner.rs` and `Legacy` is `src/main.rs`.

| file | module | models |
|---|---|---|
| wrappers.dfy | Wrappers | `Option`, and `Outcome` with `Ok`, `Err` and `Panic` |
| chars.dfy | Chars | `is_digit` / `is_alpha` / `is_alpha_numeric`, decimal text of numbers |
| common.dfy | Common | `TokenType`, `LiteralValue` with its `PartialEq` and `Display`, `Token`, `Expr`, `Statement` |
| ast_print.dfy | AstPrinter | `ast_print` |
| scanner.dfy | Scanner | `scan_tokens` and its helpers |
| scanner_facts.dfy | ScannerFacts, ScannerExamples | step-by-step properties of the scanner, line counting, worked scans |
| main_scanner.dfy | MainScanner | `parse_tokens` of `src/main.rs` and its agreement with `src/scanner.rs` |
| parser.dfy | Parsing | the parser, from `match_type` to `parse` and `synchronize` |
| parser_facts.dfy | ParserFacts | precedence, associativity, assignment targets, expression errors |
| parser_yield.dfy | ParserYield | the tokens an expression tree is read back as |
| statement_facts.dfy | StatementFacts | statement rules, `parse` and its recovery |
| environment.dfy | Environment | `Environment` with `define`, `get`, `assign` |
| interpreter.dfy | Interpreter | `is_truthy`, `is_equal`, `evaluate_binary`, `evaluate_unary`, `evaluate`, `execute`, `execute_block`, `interpret` |
| interpreter_facts.dfy | InterpreterFacts | operator algebra, variables, what programs print |

Where the code and the design of the language disagree, the model follows the code:

- **Scanner: a lexical error aborts.** An unexpected character or an unterminated string ends the whole scan with a panic. It is not a reported error after which scanning goes on.
- **Scanner: block comments.** The `/* */` loop consumes one character before it first looks for the closing pair, so `/**/` is not closed by its own `*/`.
- **Scanner: string lines.** A string token carries the line of its closing quote.
- **Parser: unwraps.** `assignment` and `block_statement` `unwrap`, so an expression with no operand panics instead of reporting "Expect expression.".
- **Parser: `var` declarations.** The `;` after a `var` declaration is optional.
- **Parser: double `}`.** A block swallows a second `}` right after its own.
- **Parser: error recovery.** On the first error, `parse` reports it and returns a single `nil;` statement in place of the program. That holds with a corrected resynchronisation. As written, `synchronize` hangs unless the error token is `EOF` or `;`, or the token after it is `EOF` (see Findings).
- **Evaluator: blocks.** A block runs in the enclosing environment and restores it afterwards, so assignments inside a block are undone.
- **Evaluator: declarations.** `var a;` (a `nil` initializer) defines nothing.
- **Evaluator: integers.** With overflow checks on (Cargo's debug profile), integer arithmetic panics on `i64` overflow, with the messages of Rust's overflow checks. Division by zero panics in every profile. Division rounds toward zero.
- **Evaluator: negating a non-number.** Negating a value that is not a number builds its error message with the `Display` of `TokenType`, which formats itself and recurses until the stack overflows. So the result is a panic, not an `Err`.

## Model

| member | source | states |
|---|---|---|
| Chars.CharClassTables | src/utils.rs:2-12 | digits are exactly the ten ASCII digits, alphas exactly the 52 ASCII letters and `_`, alphanumerics their union |
| Chars.IsAlpha | src/utils.rs:6-8 | no alpha character is a digit, so the identifier and number branches of the scanner never overlap |
| Chars.NatToStringRoundTrip | src/common.rs:107-109 | the decimal text `{}` writes for a non-negative integer reads back as that integer |
| Chars.NatToStringInjective | src/common.rs:107-109 | distinct integers are displayed as distinct texts |
| Common.KindsAreFortyOne | src/common.rs:6-56 | `TokenType` has exactly 41 kinds, in one-to-one correspondence with their declaration positions |
| Common.EqualsIsIdentity | src/common.rs:72-97 | `PartialEq` on literal values holds exactly when the two values are the same variant with the same payload |
| Common.EqualsSymmetricReflexive | src/common.rs:72-97 | `PartialEq` is symmetric, and reflexive on every non-float value |
| Common.Display | src/common.rs:98-117 | strings display without quotes, `nil` as the empty text, booleans as `true`/`false`, integers with a leading `-` exactly when negative |
| Common.IntegerDisplayRoundTrip | src/common.rs:107-109 | an integer's display is an optional `-` and a run of digits whose value gives the integer back |
| AstPrinter.AstPrint | src/utils.rs:14-59 | printing only appends: the old buffer is a prefix of the new one |
| AstPrinter.AstPrintAppendsRender | src/utils.rs:14-59 | what printing appends does not depend on the buffer: it is always the same prefix rendering of the expression |
| AstPrinter.LiteralAppendsDisplay | src/utils.rs:35-37 | a literal appends its `Display` text; `nil` appends nothing |
| Scanner.MatchExpr | src/scanner.rs:49-58 | the cursor moves by one exactly when the next character is the expected one |
| Scanner.AddToken | src/scanner.rs:249-259 | the added token's lexeme is the consumed slice of the source, on the current line, with the given kind and value |
| Scanner.LineCommentEnd | src/scanner.rs:143-148 | a `//` comment runs up to, not including, the next newline or the end, and contains no newline |
| Scanner.BlockCommentEnd | src/scanner.rs:149-159 | a block comment ends just after the first `*/` that starts at least two characters after the cursor, or at the end of the source |
| Scanner.IdentifierEnd | src/scanner.rs:179-184 | the identifier loop stops at the end of the maximal run of alphanumeric characters |
| Scanner.DigitsEnd | src/scanner.rs:228-230 | a digit loop stops at the end of the maximal run of digits |
| Scanner.IdentifierKind | src/scanner.rs:185-205 | identifier text never classifies as `EOF` or a bitwise operator |
| Scanner.ScanIdentifier | src/scanner.rs:179-206 | the token spans the maximal alphanumeric run and its kind is the classification of exactly that text |
| Scanner.StringBody | src/scanner.rs:208-218 | the closing quote is the first `"` after the opening one, and the line count there has grown by the newlines in between; no closing quote means none exists |
| Scanner.ScanString | src/scanner.rs:208-225 | a string aborts with "Unterminated string." exactly when no `"` follows; otherwise its lexeme keeps the quotes, its value drops them, and its line is the line of the closing quote |
| Scanner.ScanNumber | src/scanner.rs:227-247 | a number is a digit run, then a `.` and a second digit run only when the `.` is followed by a digit; its value is the exact decimal value of the consumed text |
| Scanner.ScanSingle | src/scanner.rs:83-177 | every step consumes at least one character, never lowers the line, adds only the consumed slice as a non-`EOF` token, and panics only with "Unexpected character." or "Unterminated string." |
| Scanner.ScanFrom | src/scanner.rs:25-28 | the tokens of the loop are non-empty slices of the source in order, non-overlapping, with non-decreasing lines within the line counter's range |
| Scanner.ScanFromUnfold | src/scanner.rs:25-28 | one turn of the loop: a failing step aborts the scan, a succeeding one puts its token ahead of the rest |
| Scanner.Scan | src/scanner.rs:24-39 | the token list ends with exactly one `EOF` with empty lexeme and no value; every other token is a non-empty non-`EOF` lexeme; lines start at 1 and never decrease; the only aborts are the two scanner panics |
| Scanner.ScanTokens | src/scanner.rs:24-39 | the loop over the cursor state with its invariants computes the same list as `Scanner.Scan` |
| ScannerFacts.KeywordTablesAgree | src/scanner.rs:185-205 | the `match` in `scan_identifer` and the `KEYWORDS` map of `src/main.rs` hold the same sixteen keywords with the same kinds |
| ScannerFacts.IdentifierKindSameInBothDialects | src/main.rs:72-89 | both scanners classify identifier text alike, as `Identifier` exactly when it is not a keyword |
| ScannerFacts.OperatorLookahead | src/scanner.rs:118-141 | `!`, `=`, `<`, `>` give the two-character kind exactly when `=` follows (and consume it), else the one-character kind |
| ScannerFacts.SlashAndComments | src/scanner.rs:142-163 | `//` and block comments add no token and keep the line; a lone `/` is a `Slash` token |
| ScannerFacts.AlphaStartsIdentifier | src/scanner.rs:170-171 | a letter or `_` starts an identifier scan |
| ScannerFacts.IdentifierMaximalMunch | src/scanner.rs:179-206 | an identifier is the maximal alphanumeric run and is a keyword exactly when its whole text is one |
| ScannerFacts.LayoutAndUnexpected | src/scanner.rs:165-175 | blanks add nothing, a newline adds one line, an unrecognised character aborts, and `&`/`\|` abort exactly in the `src/main.rs` copy |
| ScannerFacts.NoNewlineStep | src/scanner.rs:83-177 | a step not starting at a newline, a quote or a block comment keeps the line and consumes no newline |
| ScannerFacts.StepCountsNewlines | src/scanner.rs:83-177 | any step but a block comment raises the line by exactly the newlines it consumed |
| ScannerFacts.ScanFromCountsNewlines | src/scanner.rs:24-39 | without block comments every token's line is the starting line plus the newlines before its end, and the final line counts all newlines |
| ScannerFacts.LinesCountNewlines | src/scanner.rs:12-39 | from line 1: the `EOF` token is on line one plus the number of newlines in the source |
| ScannerFacts.LayoutScansToEof | src/scanner.rs:165-166 | a run of blanks and newlines collects no token |
| ScannerFacts.LayoutOnlyScansToEof | src/scanner.rs:24-39 | a source of blanks and newlines scans to the `EOF` token alone, on line one plus its newlines |
| ScannerFacts.DigitStartsNumber | src/scanner.rs:167-169 | a digit starts a number scan |
| ScannerFacts.NumberOfDigits | src/scanner.rs:227-247 | a text of digits alone is one `Number` whose value is the text's decimal value |
| ScannerFacts.NumberRoundTrip | src/scanner.rs:227-247 | scanning the decimal text of a natural number gives one `Number` token with that number as its value, then `EOF` |
| ScannerFacts.WordScansToOneToken | src/scanner.rs:179-206 | a single word scans to one token, of the keyword kind it spells or `Identifier` |
| ScannerFacts.OneStepScan | src/scanner.rs:24-39 | a source consumed by its first step scans to that step's token and `EOF` |
| ScannerExamples.KeywordPrefixIsIdentifier | src/scanner.rs:185-205 | `classy` is an identifier, not `class` followed by `y` |
| ScannerExamples.KeywordIsKeyword | src/scanner.rs:185-205 | `class` is the keyword in both scanners |
| ScannerExamples.BangEqualIsOneToken | src/scanner.rs:118-123 | `!=` is one `BangEqual` token |
| ScannerExamples.BangSpaceIsBang | src/scanner.rs:118-123 | `! ` is a `Bang` token and nothing else |
| ScannerExamples.StringTakesClosingLine | src/scanner.rs:208-225 | a string spanning a newline carries line 2 and keeps the newline in its value |
| ScannerExamples.UnclosedStringAborts | src/scanner.rs:215-217 | an unclosed string aborts the whole scan |
| ScannerExamples.EmptyBlockCommentRunsToEnd | src/scanner.rs:149-159 | `/**/x` is one comment running to the end: no token but `EOF` |
| ScannerExamples.AmpersandAbortsLegacy | src/main.rs:268-361 | `a&b` aborts with "Unexpected character." in the `src/main.rs` scanner |
| ScannerExamples.AmpersandIsTokenInCurrent | src/scanner.rs:116-117 | `a&b` is an identifier, a `BitwiseAnd` and an identifier in `src/scanner.rs` |
| MainScanner.StepSameInBothDialects | src/main.rs:268-361 | the two scanners take the same step from every character but `&` and `\|` |
| MainScanner.ScanFromSameInBothDialects | src/main.rs:208-219 | on a source without `&` and `\|` the two scanning loops give the same result |
| MainScanner.StepTokenShape | src/main.rs:158-163 | every token a step adds has a literal of the `src/main.rs` `Literal` type, and a bitwise kind only in `src/scanner.rs` from its own character |
| MainScanner.ScanFromMainTokens | src/main.rs:208-219 | every token the `src/main.rs` loop collects fits its own token type |
| MainScanner.LegacyScanShape | src/main.rs:208-219 | every token of `parse_tokens` fits the `src/main.rs` token type, and without `&` and `\|` the result equals the `src/scanner.rs` one, aborts included |
| MainScanner.ParseTokens | src/main.rs:208-219 | `parse_tokens` only aborts with the two scanner panics, yields only `src/main.rs` tokens, and agrees with `scan_tokens` on sources without bitwise characters |
| Parsing.CheckType | src/parser.rs:22-27 | true exactly when the current token has the kind and it is not `EOF`, even when `EOF` is asked for |
| Parsing.Previous | src/parser.rs:36-42 | the token before the cursor, and a panic exactly at position 0 |
| Parsing.Advance | src/parser.rs:29-34 | the cursor moves by one except on `EOF`, which is never passed; the result is the token moved over |
| Parsing.MatchTypeIsLoop | src/parser.rs:13-21 | the loop over the kinds consumes exactly one token when the current token is not `EOF` and its kind is listed, otherwise nothing |
| Parsing.Consume | src/parser.rs:245-253 | success exactly when the kind is current, consuming one token; otherwise the error at the current token with the given message |
| Parsing.Skip | src/parser.rs:336-339 | an ignored `consume` skips the token when present and never fails |
| Parsing.ErrorAt | src/parser.rs:254-263 | the diagnostic is on the token's line, "at end" for `EOF`, otherwise located at the token with its lexeme before the message |
| Parsing.TiersMatchLevels | src/parser.rs:66-195 | the binding tier of an operator agrees with the operator lists of the five binary levels |
| Parsing.Expression | src/parser.rs:50-52 | an expression never returns `Err`; on success it consumed at least one token and its tree respects precedence and associativity (`Shaped`) |
| Parsing.Assignment | src/parser.rs:53-65 | as `Parsing.Expression`; the left side of `=` is a variable or is reported |
| Parsing.AssignmentTail | src/parser.rs:56-65 | after the left side, `assignment` never returns `Err` and keeps the parser on the same tokens |
| Parsing.BinaryRule | src/parser.rs:66-195 | a binary level consumes at least one token and builds a tree whose operators bind at that level or tighter, left-associated |
| Parsing.Unary | src/parser.rs:196-209 | a unary consumes at least one token and builds prefix operators over a tighter operand |
| Parsing.Primary | src/parser.rs:210-244 | a primary consumes at least one token or fails with the parser still valid; its literals are those of `ParserFacts.LiteralValues` |
| Parsing.GroupOrName | src/parser.rs:228-243 | the only errors are "Expect ')' after expression." and "Expect expression." |
| Parsing.Group | src/parser.rs:228-235 | after `(`, a group's only error is "Expect ')' after expression."; success yields a grouping and consumes tokens |
| Parsing.LiteralPrimary | src/parser.rs:211-227 | a literal is read exactly when the current token is a number, string, `true`, `false` or `nil`, and it is exactly that one token long |
| Parsing.PrintStatement | src/parser.rs:291-303 | the only error is the missing `;`; success gives a print statement and consumes tokens |
| Parsing.ExpressionStatement | src/parser.rs:304-316 | the only error is the missing `;`; success gives an expression statement and consumes tokens |
| Parsing.VarDeclaration | src/parser.rs:326-344 | a declaration never returns `Err` (a missing name panics) and yields a `var` statement |
| Parsing.Declaration | src/parser.rs:345-350 | the only error a declaration returns is the missing `;` |
| Parsing.Statement | src/parser.rs:318-325 | the only error a statement returns is the missing `;` |
| Parsing.BlockStatement | src/parser.rs:351-361 | a block never returns `Err` (an inner error panics) and yields a block of well-formed statements |
| Parsing.Declarations | src/parser.rs:362-368 | the declarations loop stops on `EOF` without consuming it; its only error is the missing `;` |
| Parsing.Recover | src/parser.rs:369-376 | the error path keeps the earlier reports, adds the error's diagnostic and returns the single `nil;` statement; it panics only at an `EOF` at position 0 |
| Parsing.Parse | src/parser.rs:362-381 | `parse` never returns `Err` and every statement it returns is well formed |
| Parsing.Synchronize | src/parser.rs:268-290 | the corrected resynchronisation only moves the cursor, and stops at `EOF`, after a `;` or before a statement keyword |
| Parsing.SyncLoop | src/parser.rs:271-289 | the loop stops at the first synchronisation point from the cursor on |
| Parsing.SynchronizeAsWritten | src/parser.rs:268-290 | as written, the loop hangs exactly when the first `advance` lands neither on `EOF` nor after a `;` |
| ParserFacts.LoopStops | src/parser.rs:68-89 | a binary loop consumes nothing at a token that is not one of its operators |
| ParserFacts.LoopStep | src/parser.rs:68-89 | an operator of the level and its right operand fold into the left operand |
| ParserFacts.NameAtLevel | src/parser.rs:66-195 | a name followed by no operator of the level or a tighter one parses as just the variable |
| ParserFacts.LevelsPassThrough | src/parser.rs:66-195 | a tighter level's result is every looser level's result when no operator of the levels in between follows |
| ParserFacts.ChainIsExpression | src/parser.rs:50-65 | without a following `=`, `expression` returns the binary chain unchanged |
| ParserFacts.LiteralValues | src/parser.rs:211-227 | a number or string token gives its carried value, `true` and `false` the booleans, `nil` the nil value |
| ParserFacts.ThreeNamesFoldLeft | src/parser.rs:66-195 | `a op b op c` with both operators of one level is `(a op b) op c`, at any of the five binary levels |
| ParserFacts.ThreeNamesExpression | src/parser.rs:50-195 | as a whole expression, `a op b op c` with both operators of one level is `(a op b) op c`, ending before the next token |
| ParserFacts.LeftAssociative | src/parser.rs:146-170 | `a - b - c` parses as `(a - b) - c` |
| ParserFacts.PrefixesNestRight | src/parser.rs:196-209 | a run of `!` and `-` before a name nests to the right, the first operator outermost |
| ParserFacts.NotAPrimary | src/parser.rs:241-243 | where no primary starts, `primary` fails with "Expect expression." at that token, consuming nothing |
| ParserFacts.GroupCloses | src/parser.rs:228-235 | a parenthesised expression followed by `)` is a group |
| ParserFacts.GroupUnclosed | src/parser.rs:228-235 | a parenthesised expression without `)` is "Expect ')' after expression." at the token found instead |
| ParserFacts.OperandErrorPropagates | src/parser.rs:66-195 | an error at the leftmost operand is the error of every binary level |
| ParserFacts.MissingOperandPanics | src/parser.rs:53-55 | an expression with no operand at all panics, because `assignment` unwraps |
| ParserFacts.AssignsToName | src/parser.rs:53-65 | `name = value` is an assignment whose value is parsed by `assignment` again, so assignment nests to the right |
| ParserFacts.ReportsInvalidTarget | src/parser.rs:53-65 | a left side other than a name is reported as an invalid target and returned; the right side is dropped |
| StatementFacts.EmptyProgram | src/parser.rs:362-381 | a program that is only `EOF` has no statements and no diagnostics |
| StatementFacts.EmptyBlock | src/parser.rs:351-361 | `{ }` is an empty block, and a second `}` right after it is swallowed |
| StatementFacts.DeclarationPanicsAtEnd | src/parser.rs:345-350 | a declaration at `EOF` panics |
| StatementFacts.UnclosedBlockPanics | src/parser.rs:351-361 | a block that reaches `EOF` before its `}` panics |
| StatementFacts.DeclarationWithoutInitializer | src/parser.rs:326-344 | `var a` declares `a` as `nil`, and the `;` is skipped only when present |
| StatementFacts.DeclarationWithoutNamePanics | src/parser.rs:327-330 | `var` not followed by a name panics |
| StatementFacts.MissingSemicolon | src/parser.rs:291-316 | an expression or print statement without its `;` is the error at the token found instead, with the parser left there |
| StatementFacts.SynchronizeAsWrittenHangsOnABC | src/parser.rs:268-290 | with the tokens `a b c` and the error at `b`, `synchronize` as written never returns |
| StatementFacts.ABCRecovers | src/parser.rs:362-381 | with the corrected resynchronisation, `a b c` gives one diagnostic at `b` and the single `nil;` statement |
| StatementFacts.TwoNamesFail | src/parser.rs:304-316 | a program starting with two names in a row fails with the missing-`;` error at the second name, the cursor left on it |
| StatementFacts.StatementWithSemicolon | src/parser.rs:291-316 | an expression followed by `;` is a print statement (after `print`) or an expression statement of that expression, ending after the `;` |
| StatementFacts.PrintKeyword | src/parser.rs:318-350 | a declaration at `print` is the print statement after the keyword |
| StatementFacts.VarKeyword | src/parser.rs:345-350 | a declaration at `var` is the variable declaration after the keyword |
| StatementFacts.DeclarationWithInitializer | src/parser.rs:326-344 | `var n = e` is the statement declaring `n` with the parsed `e`, ending after the `;` when one follows |
| StatementFacts.DeclarationWithFailingInitializer | src/parser.rs:326-344 | an initializer that panics makes the declaration panic with the same message |
| StatementFacts.DeclarationsCons | src/parser.rs:362-368 | the declarations loop returns the first declaration followed by the ones read after it |
| StatementFacts.DeclarationsInOrder | src/parser.rs:362-368 | declarations read one after another up to `EOF` are returned in order, ending at `EOF` |
| StatementFacts.ProgramInOrder | src/parser.rs:362-381 | such a run from the first token is the program `parse` returns, with the reports made along the way |
| ParserYield.ExpressionReadsBack | src/parser.rs:50-244 | an expression parsed without a report reads back, operator by operator and parenthesis by parenthesis, as exactly the kinds of the tokens it consumed |
| ParserYield.ExpressionYield | src/parser.rs:50-52 | `expression` reads back as the tokens it consumed, unless it reported |
| ParserYield.AssignmentYield | src/parser.rs:53-65 | as `ParserYield.ExpressionYield`, for `assignment` |
| ParserYield.TailYield | src/parser.rs:56-65 | after a left side, the assignment tail reads back as that side followed by the tokens it consumed |
| ParserYield.BinaryRuleYield | src/parser.rs:66-195 | every binary level reads back as the tokens it consumed |
| ParserYield.OperandYield | src/parser.rs:66-195 | the operand of a binary level reads back as the tokens it consumed |
| ParserYield.LoopYield | src/parser.rs:68-89 | a binary loop reads back as its left operand followed by the operators and operands it consumed |
| ParserYield.UnaryYield | src/parser.rs:196-209 | a unary reads back as its prefix operators and its operand's tokens |
| ParserYield.PrimaryYield | src/parser.rs:210-244 | a primary reads back as the tokens it consumed |
| ParserYield.LiteralYield | src/parser.rs:211-227 | a literal reads back as its one token |
| ParserYield.GroupOrNameYield | src/parser.rs:228-243 | a group or a name reads back as the tokens it consumed |
| ParserYield.GroupYield | src/parser.rs:228-235 | a group reads back as `(`, its inner tokens and `)` |
| Environment.NewScope | src/environment.rs:22-27 | a new scope is empty inside the given enclosing scope |
| Environment.Define | src/environment.rs:28-30 | `define` binds the name in this scope only, keeping every other binding and the enclosing scope |
| Environment.Get | src/environment.rs:31-41 | `get` returns this scope's binding when there is one, and only the "Undefined variable" error |
| Environment.GetReadsVisible | src/environment.rs:31-41 | `get` returns the innermost visible binding, and the error exactly when no scope binds the name |
| Environment.DefineUpdatesVisible | src/environment.rs:28-30 | `define` changes the visible bindings at that name only |
| Environment.GetAfterDefine | src/environment.rs:28-41 | after `define`, `get` of the name gives the value and `get` of every other name is unchanged |
| Environment.Assign | src/environment.rs:42-57 | the corrected `assign` keeps the scope structure and bound names, and fails only with "Undefined variable" |
| Environment.AssignUpdatesVisible | src/environment.rs:42-57 | the corrected `assign` succeeds exactly when the name is visible, and then changes the visible bindings at that name only |
| Environment.AssignAsWritten | src/environment.rs:42-57 | as written, `assign` fails exactly when the name is unbound and there is no enclosing scope, and a name not bound here leaves the scope unchanged |
| Environment.AssignAgreesInOneScope | src/environment.rs:42-57 | in a single scope the written and corrected `assign` agree |
| Environment.AssignAsWrittenLosesOuterUpdate | src/environment.rs:47-54 | assigning an outer variable from an inner scope reports success but the variable keeps its old value |
| Interpreter.CheckedI64 | src/interpreter.rs:70-113 | an integer result is returned exactly when it fits in `i64`, otherwise the overflow panic |
| Interpreter.TruncatedDivision | src/interpreter.rs:109-113 | the quotient leaves a remainder smaller than the divisor with the sign of the dividend (rounding toward zero) |
| Interpreter.IsTruthy | src/interpreter.rs:28-54 | exactly `nil`, `false`, integer 0, the empty string and float 0 are false |
| Interpreter.IsEqual | src/interpreter.rs:22-27 | two values are equal exactly when they are the same value |
| Interpreter.EvaluateBinary | src/interpreter.rs:59-165 | "Invalid operator" exactly for the operand and operator combinations no arm matches; on two integers `+ - *` are the `i64`-checked results and `/` panics on a zero divisor and otherwise is the checked quotient rounded toward zero; on two floats `+ - * /` are the exact results; `<` compares; `+` concatenates two strings; panics only on integer arithmetic or float division by zero |
| Interpreter.EvaluateUnary | src/interpreter.rs:166-184 | `!` is the negated truthiness, `-` negates a float and is the `i64`-checked negation of an integer, `-` of a non-number overflows the stack, any other operator gives `nil`, and `Err` never results |
| Interpreter.Evaluate | src/interpreter.rs:186-210 | evaluation, with `assign` as written, never adds or removes a visible variable or a scope, and an expression without assignment leaves the environment untouched |
| Interpreter.Execute | src/interpreter.rs:211-233 | output only grows; `print e` finishes exactly when `e` evaluates, and then appends its value and keeps the environment `e` left; `e;` likewise, printing nothing; `var n = e` with a non-`nil` initializer finishes exactly when `e` evaluates and then binds `n` to its value, while `var n` does nothing; variables are never removed and scopes never added |
| Interpreter.ExecuteBlock | src/interpreter.rs:234-240 | a finished block leaves the environment exactly as before it, and prints what its statements print |
| Interpreter.ExecuteAll | src/interpreter.rs:241-245 | running statements in order only extends the output and never removes a visible variable |
| Interpreter.Interpret | src/interpreter.rs:241-245 | a finished program's environment is still the single global scope |
| InterpreterFacts.EqualityOperators | src/interpreter.rs:155-160 | `==` and `!=` apply to any two values and are each other's negation |
| InterpreterFacts.IntegerDivisionPanics | src/interpreter.rs:109-113 | integer division panics exactly on a zero divisor and on `i64::MIN / -1`, and otherwise gives the truncated quotient |
| InterpreterFacts.QuotientBounded | src/interpreter.rs:109-113 | the truncated quotient is no larger in magnitude than the dividend |
| InterpreterFacts.TruncatedDivisionUnique | src/interpreter.rs:109-113 | rounding toward zero determines the quotient: no other integer meets its two conditions |
| InterpreterFacts.TruncationIsNotEuclidean | src/interpreter.rs:109-113 | `-7 / 2` is `-3` in Lox, where Euclidean division would give `-4` |
| InterpreterFacts.ComparisonsMirror | src/interpreter.rs:114-153 | `>` and `<` mirror each other, as do `>=` and `<=`, and `<=` is the negation of `>` |
| InterpreterFacts.AdditionCommutesOnNumbers | src/interpreter.rs:76-85 | `+` on two numbers of one kind does not depend on operand order |
| InterpreterFacts.ConcatenationDoesNotCommute | src/interpreter.rs:86-93 | `+` on strings concatenates in order, so it does not commute |
| InterpreterFacts.NegationsUndo | src/interpreter.rs:166-184 | a second `-` undoes the first on numbers, and `!!v` is the truthiness of `v` |
| InterpreterFacts.NegatingMinimumPanics | src/interpreter.rs:174 | `-i64::MIN` panics with the negation overflow |
| InterpreterFacts.VariableReadsVisible | src/interpreter.rs:203 | a variable is the innermost visible binding, or the "Undefined variable" error |
| InterpreterFacts.AssignmentExpression | src/interpreter.rs:204-208 | an assignment's value is its right side's; it rebinds a name of the innermost scope and otherwise leaves the environment as is, which in a single scope is the corrected `assign`, updating a visible name; assigning an undefined name is silently not an error |
| InterpreterFacts.ExecuteAllAppend | src/interpreter.rs:241-245 | running two lists one after the other is running their concatenation |
| InterpreterFacts.ExecuteAllCons | src/interpreter.rs:241-245 | running a list is running its first statement and then, if it finished, the rest |
| InterpreterFacts.BlockChangesOnlyOutput | src/interpreter.rs:234-240 | a block finishes exactly when its statements do, and then only the output changes |
| InterpreterFacts.ProgramsStayInOneScope | src/interpreter.rs:241-245 | after every top-level statement of a program that has finished so far, the environment is one scope, where the written and corrected `assign` agree |
| InterpreterFacts.PrintIsExpressionStatementWithOutput | src/interpreter.rs:213-219 | `print e` finishes exactly when `e;` does, leaves the same environment and adds the value of `e` to the output; when one crashes both crash alike |
| InterpreterFacts.DeclareThenPrint | src/interpreter.rs:211-230 | `var n = e; print n;` binds `n` to the value of `e` and prints that value |
| InterpreterFacts.AssignmentInBlockIsUndone | src/interpreter.rs:234-240 | `var a = 1; { a = 2; } print a;` prints 1 |
| InterpreterFacts.AssignmentOutsideBlockStays | src/interpreter.rs:204-208 | `var a = 1; a = 2; print a;` prints 2 |
| InterpreterFacts.DeclarationWithoutValueDefinesNothing | src/interpreter.rs:220-230 | `var a; print a;` panics without printing, since `a` was never defined |
| InterpreterFacts.CrashKeepsEarlierOutput | src/interpreter.rs:211-233 | `print 1; print -nil; print 2;` prints 1 and then aborts |

## Left out

- **I/O.** `run_file`, `run_prompt`, `main` and `run` of `src/main.rs` read files and standard input and are not part of this model.
- **Console output.** The `println!` of `print` and `report` is not modelled; printed values and diagnostics are kept in the state instead.
- **Debug printing.** The debug printing of the token list is not modelled.
- **The `had_error` flag.** The flag of `src/main.rs` is not modelled; nothing in the modelled core reads it.
- **Float arithmetic and formatting.** `f64` is modelled by exact reals. Rounding, infinities and NaN are not modelled, and neither is the `Display` of floats.
- Interpreter.EvaluateBinary: float division by zero is a panic placeholder (`FloatDivisionByZero`) rather than the infinity or NaN Rust gives, because exact reals have none.
- Common.Display: requires a non-float value, since Rust's shortest round-trip float formatting is not modelled.
- AstPrinter.AstPrint: requires that the expression contains no float literal, for the same reason.
- Common.EqualsIsIdentity: holds for exact reals; with `f64`, NaN is not equal to itself.
- Scanner.Scan: requires an ASCII source shorter than 255 characters. Offsets and the line counter are `u8`, so longer sources overflow them, and the source slices bytes while counting characters. Both are outside the model.
- Scanner.ScanTokens: has the same requirement as `Scanner.Scan`.
- MainScanner.ParseTokens: has the same requirement as `Scanner.Scan`.
- **Parser precondition.** The parser functions require a token list that ends with `EOF` and a cursor on one of its tokens, as every scan produces; the source indexes without checking.
- **`Display` of `TokenType`.** The `Display` of `TokenType` (`src/common.rs:58-62`, `src/main.rs:91-95`) recurses without end. It is modelled only by its consequence, the stack-overflow panic of `Interpreter.EvaluateUnary`.
- **`Display` of `Token`.** The `Display` of `Token` is not modelled: nothing in the core calls it.
- Interpreter.CheckedI64: assumes overflow checks are on (Cargo's debug profile). A release build wraps `+ - *` and unary `-` instead of panicking; division by zero and `i64::MIN / -1` panic in both.
- ParserYield.ExpressionReadsBack: requires that number and string tokens carry a value of their kind (`LiteralsTagged`). The scanner's token constructors make them so, but this is not carried through `Scanner.Scan` to the parser.
- ParserYield.ExpressionReadsBack: says nothing of a parse that reported an invalid assignment target, since that parse drops the right side it read.
- **Map internals.** The `phf` map and the `HashMap` internals are modelled as Dafny maps.

## Findings

| source | as written | input that shows it | evidently intended | confidence | as-written member | corrected member |
|---|---|---|---|---|---|---|
| src/parser.rs:268-290 | `synchronize` advances once before its loop and never inside it, so unless that advance lands on `EOF` or just after a `;`, the loop spins forever | tokens `a b c EOF`: `parse` fails at `b` (missing `;`) and `synchronize` never returns | skip tokens one at a time up to just after a `;`, just before a statement keyword, or `EOF` | not executed | StatementFacts.SynchronizeAsWrittenHangsOnABC (on Parsing.SynchronizeAsWritten) | Parsing.Synchronize, used by Parsing.Recover; StatementFacts.ABCRecovers |
| src/environment.rs:42-57 | `assign` of a name not bound in this scope assigns into a clone of the enclosing scope and drops it, and returns `Ok` whatever that gave | `a = 1` in the enclosing scope, then assigning `a = 2` from an inner scope: `Ok`, but `a` still reads 1; assigning an unbound name from an inner scope is also `Ok` | rebind the name in the innermost scope that binds it, and report "Undefined variable" when none does | not executed | Environment.AssignAsWrittenLosesOuterUpdate (on Environment.AssignAsWritten) | Environment.Assign; Environment.AssignUpdatesVisible |

`Interpreter.Evaluate` calls `assign` as written, as the source does. The second finding cannot show through `interpret`. A block reuses the enclosing environment instead of opening a scope, and `Interpreter.Evaluate` and `Interpreter.Execute` keep the number of scopes, so after each top-level statement the environment is a single scope (`InterpreterFacts.ProgramsStayInOneScope`). In one scope the two versions agree (`Environment.AssignAgreesInOneScope`), and an assignment there has the corrected effect (`InterpreterFacts.AssignmentExpression`).
