# bds-cpp front end in Dafny

This project models the front end of bds-cpp, a small C-like language:

- **Lexer.** It turns a source string into a token stream that ends in one END token. It stops at the first lexical error.
- **Recursive-descent parser.** It turns the token stream into statements, or into the list of diagnostics, one per failed top-level declaration.

Both are modelled as pure functions over an explicit state. The C++ mutates a cursor: `start/current/row/column` in the lexer, and `current` in the parser. In the model:

- The lexer threads a `LexState` from one `scanToken` step to the next.
- Every parse function returns a `Parse<T>`, which is either `POk(value, pos)` or `PErr(error, pos)`. Both carry the cursor after the call, so callers resume where the C++ cursor would be.

Modules, following the program's structure:

| module | file | models |
|---|---|---|
| Wrappers | wrappers.dfy | `Option`, `Result` (`std::optional`, `std::expected`) |
| Tokens | tokens.dfy | the 51 token kinds, the token record, and the single-character, two-character and keyword tables |
| Errors | errors.dfy | the seven error kinds and `ParseError` |
| SourceLines | lines.dfy | `getline(n)`, which attaches the source line to every token |
| Lexer | lexer.dfy | the lexer state, the cursor helpers, and `scanToken` rule by rule |
| LexerRules | lexer_rules.dfy | what `scanToken` yields for each kind of input |
| Scanning | scanning.dfy | the `scanTokens` loop |
| Reconstruct | reconstruct.dfy | lexemes rebuild the source |
| Ast | ast.dfy | the 11 `Expr` shapes and the 9 `Stmt` shapes |
| Shapes | shapes.dfy | the trees the parser can build: precedence nesting, arity limits, identifier names |
| Cursor | cursor.dfy | `advance/check/consume`, `expectedTokens`, `synchronize` |
| ExprParser | exprparser.dfy | the expression grammar from `expression()` down to `primary()` |
| ExprYield | expr_yield.dfy | the parsed tree spells the tokens it consumed |
| ExprStops | expr_stops.dfy | where a successful expression parse stops |
| Precedence | precedence.dfy | how a parse of `n op n op n` is grouped |
| SumExample | sum_example.dfy | `1 + 2 * 3` parsed tier by tier |
| ChainExample | chain_example.dfy | `f(x)(y)` and `n op n op n` within one tier, parsed end to end |
| StmtParser | stmtparser.dfy | `declaration()`, `statement()` and every statement parser |
| StmtPattern | stmt_pattern.dfy | the token kinds a statement stands for, as a pattern, and how patterns match |
| StmtYield | stmt_yield.dfy | the parsed statement spells the tokens it consumed |
| ParserFacts | parser_facts.dfy | error paths, assignment targets, the arity limits and null statements |
| Program | program.dfy | `parseTokens()`, and how the lexer output feeds it |
| Seqs | seqs.dfy | regrouping facts about sequence concatenation, used by the proofs |

The six infix functions `logicalOr` … `multiplication` share one shape, so they are modelled as one function, `ParseTier(tier)`, over tiers 1 (`or`) to 6 (`* / %`). Their `while (match(...))` loops are modelled by `TierTail`.

Where the source has undefined behaviour, the model follows the evident intent:

- `parseTokens` dereferences a failed `expected` (src/parser.cpp:60). The model keeps only the diagnostic.
- `call()` dereferences a failed `finishCall` result when another `(` follows (src/parser.cpp:294). The model propagates the error.
- `get<T>` throws on a target that is neither `Variable` nor `Get` (include/expr.hpp:121). The model reports `InvalidAssignment`, which is what the code after the test is written to do.

## Model

| member | source | states |
|---|---|---|
| Tokens.SingleTableSound | src/lexer.cpp:5-16 | Every entry of the single-character table maps its character to a single-character kind, and that kind is spelled by that character. |
| Tokens.SingleTableComplete | src/lexer.cpp:5-16 | Each of the 20 single-character kinds is found in the table from its own spelling. The table covers exactly that category of the enumeration. |
| Tokens.DoubleTableSound | src/lexer.cpp:18-22 | Every two-character entry maps its two characters to a two-character kind spelled by exactly those two characters. |
| Tokens.DoubleTableComplete | src/lexer.cpp:18-22 | Each of the 7 two-character kinds is found from its two-character spelling. |
| Tokens.DoubleTableChars | src/lexer.cpp:18-22 | Both characters of every two-character operator are single-character tokens. The first is never `/`, and neither is NUL or a newline. So the two-character test, which runs first, cannot swallow a comment opener or a line break. |
| Tokens.KeywordTableComplete | src/lexer.cpp:25-35 | Every one of the 20 keyword kinds is found from its spelling. |
| Tokens.KeywordTableKinds | src/lexer.cpp:25-35 | The keyword table yields only keyword kinds. |
| Tokens.KeywordTableSound | src/lexer.cpp:25-35 | Looking a text up and spelling the kind found gives back that text. With KeywordTableComplete, this makes the 20 spellings one-to-one with the 20 keyword kinds. |
| SourceLines.NewlinesMonotone | src/lexer.cpp:120-123 | The row a position lies on never decreases as the position moves forward. |
| SourceLines.LineScanSpan | src/lexer.cpp:81-101 | The loop of `getline(n)` ends with the bounds of line `n` as `IsLineSpan` defines them. |
| SourceLines.GetLineIsSpan | src/lexer.cpp:81-101 | `getline(n)` returns `source[a..b]` where `a` is 0 for line 1 (or when line `n` does not exist), and otherwise lies just after the (n-1)-th newline. `b` is the n-th newline or the end, and a newline in the last position is never a boundary. |
| SourceLines.LineSpanUnique | src/lexer.cpp:81-101 | At most one span satisfies that description, so `getline(n)` is determined by it. |
| Lexer.Start | src/lexer.hpp:18-21 | The initial state (offset 0, row 1, column 1) satisfies the lexer invariant: the row is one more than the newlines before the cursor. |
| Lexer.AdvanceWhile | src/lexer.cpp:163-186 | Skipping an identifier or digit run stops at the end of the maximal run. Every skipped character is in the run, and the next one is not. The column moves with the cursor and the row does not. |
| Lexer.AdvanceLine | src/lexer.cpp:120-123 | Consuming one character inside a comment or string keeps the row equal to one more than the newlines consumed. |
| Lexer.BlockComment | src/lexer.cpp:134-152 | A block comment ends just after the first `*/` at or after the opening star, so `/*/` is closed. It fails with UnterminatedComment carrying the opener's token exactly when no closer follows. |
| Lexer.StringBody | src/lexer.cpp:188-206 | A string body stops in front of the first `"` after the opener. It fails with UnterminatedString carrying the opener's token exactly when no quote remains. |
| Lexer.DoubleGood | src/lexer.cpp:108-112 | A two-character operator step moves forward and stamps its token where the step ended. Its lexeme is the two characters. |
| Lexer.BlankGood | src/lexer.cpp:116-127 | Blanks, newlines and `#` comments move forward without a token. |
| Lexer.SlashGood | src/lexer.cpp:128-158 | A `/` gives a line comment, a block comment, or a Slash token with an empty lexeme. Every outcome moves forward, and the only failure is an unterminated comment. |
| Lexer.IdentifierGood | src/lexer.cpp:163-172 | An identifier step yields one token whose lexeme is the scanned text. |
| Lexer.NumberGood | src/lexer.cpp:174-186 | A number step yields one token whose lexeme is the scanned text. |
| Lexer.StringGood | src/lexer.cpp:188-206 | A string step yields a token whose lexeme is the text between the quotes, or fails with UnterminatedString. |
| Lexer.DefaultGood | src/lexer.cpp:159-211 | The default branch keeps the step invariant, including for a character no rule knows. |
| Lexer.CharGood | src/lexer.cpp:114-211 | The switch on the consumed character keeps the step invariant. |
| Lexer.TokenGood | src/lexer.cpp:107-211 | Every `scanToken` call advances `current` and keeps the row count right. Any token it yields is not END, is stamped with the position where the step ended, and has a lexeme taken from the source. The only errors are the two unterminated kinds. |
| LexerRules.DoubleRule | src/lexer.cpp:108-112 | When the next two characters spell a two-character operator, that check wins. The step gives one token of that kind whose lexeme is the two characters; `current` moves by 2 and the row and column do not move. |
| LexerRules.SingleRule | src/lexer.cpp:159-161 | A single-character table entry other than `/` gives its kind with a one-character lexeme. The column moves by one. |
| LexerRules.LoneSlashRule | src/lexer.cpp:154-155 | A `/` followed by neither `/` nor `*` gives Slash with an empty lexeme. |
| LexerRules.BlankRule | src/lexer.cpp:116-119 | A space, `\r` or `\t` gives no token and moves the column by one. |
| LexerRules.NewlineRule | src/lexer.cpp:120-123 | A newline gives no token. The row moves up by one and the column becomes 1. |
| LexerRules.LineCommentRule | src/lexer.cpp:124-133 | A `#` or `//` comment gives no token. It stops in front of the next newline, or at the end, on the same row. |
| LexerRules.BlockCommentRule | src/lexer.cpp:134-153 | `/*` succeeds exactly when a closing `*/` follows (counting `/*/`). It then gives no token and stops just after the first closer. Otherwise the error is UnterminatedComment at the token made at the slash. |
| LexerRules.ToIdentifier | src/lexer.cpp:159-163 | A letter or `_` reaches the identifier rule, because no table entry starts with one. |
| LexerRules.IdentifierRule | src/lexer.cpp:163-172 | The identifier lexeme is the maximal letter/digit/`_` run. Its kind is the keyword kind exactly when the run is one of the 20 keywords, and Identifier otherwise. |
| LexerRules.ToNumber | src/lexer.cpp:159-174 | A digit reaches the number rule. |
| LexerRules.NumberRule | src/lexer.cpp:174-186 | A number is the maximal digit run, plus a `.` and a second digit run when a `.` follows. So `1.` is one number, and `1.2.3` starts with the number `1.2`. |
| LexerRules.IntegerNumberText | src/lexer.cpp:174-176 | A digit run is number text without a dot. |
| LexerRules.FractionNumberText | src/lexer.cpp:178-182 | Digits, a dot and digits form number text with a dot. |
| LexerRules.ToString | src/lexer.cpp:159-188 | A `"` reaches the string rule. |
| LexerRules.StringRule | src/lexer.cpp:188-206 | A string's lexeme is exactly the text strictly between the opening quote and the next quote, with no escapes. Without a closing quote the scan fails with UnterminatedString at the opener's token. |
| LexerRules.DroppedRule | src/lexer.cpp:207-211 | A character no rule responds to is consumed and dropped: no token and no error. UnexpectedCharacter is never raised. |
| LexerRules.WordDispatch | src/lexer.cpp:159-163 | Letters, `_`, digits and `"` are not in the single-character table, so they reach the default branch's later tests. |
| LexerRules.NotDouble | src/lexer.cpp:108-115 | A character that starts no table entry skips the two-character test and goes to the switch. |
| Scanning.ScanFromGood | src/lexer.cpp:42-55 | The scan loop either yields a stream that ends in exactly one END with an empty lexeme, with no other END and with positions that never go backwards, or stops at the first unterminated string or comment. |
| Scanning.LexGood | src/lexer.cpp:42-55 | The same, for a whole file from row 1, column 1. Every error is a lexical one. |
| Reconstruct.PlainStep | src/lexer.cpp:107-211 | For characters outside strings, comments and lone slashes, one step's lexeme is the consumed text minus blanks. |
| Reconstruct.DoubleKeepsText | src/lexer.cpp:108-112 | A two-character operator's lexeme is the text it consumed. |
| Reconstruct.BlankKeepsText | src/lexer.cpp:116-123 | A blank step consumes only blank text and yields no token. |
| Reconstruct.SingleKeepsText | src/lexer.cpp:159-161 | A single-character token's lexeme is the character consumed. |
| Reconstruct.NumberKeepsText | src/lexer.cpp:174-186 | A number's lexeme is the text consumed, which has no blanks. |
| Reconstruct.IdentifierKeepsText | src/lexer.cpp:163-172 | An identifier's lexeme is the text consumed, which has no blanks. |
| Reconstruct.ScanFromRebuilds | src/lexer.cpp:42-55 | On plain input the scan loop never fails. The lexemes of its tokens, concatenated, are the rest of the source with blanks removed. |
| Reconstruct.LexRebuildsSource | src/lexer.cpp:42-55 | The lexing round trip: on a source over the plain alphabet, lexing succeeds and the lexemes rebuild the source minus its blanks. |
| Cursor.Advance | src/parser.cpp:71-75 | `advance` moves by one token, except at END, where it stays. It never leaves the stream. |
| Cursor.Consume | src/parser.cpp:103-109 | `consume` succeeds exactly when `check` does; it then returns that token and moves by one. On failure the cursor stays and the error is UnexpectedToken at the token in front, with `expectedTokens[kind]` as its argument. |
| Cursor.ExpectedCoversConsumed | src/parser.cpp:10-45 | Every kind the parser consumes has an entry in `expectedTokens`. A single-character kind's entry is its spelling in quotes. |
| Cursor.SyncFrom | src/parser.cpp:114-131 | The resynchronisation loop stops at the first sync point: END, just after a `;`, or in front of `fn/let/for/if/while/print/return`. It skips no earlier one. |
| Cursor.Synchronize | src/parser.cpp:111-131 | `synchronize` ends at a sync point and moves at least one token unless already at END. No sync point lies strictly between. |
| ExprParser.ParseExpression | src/parser.cpp:133-135 | An expression parse stays in the stream and moves forward when it succeeds. It builds only trees that respect precedence and arity (`WellNested`), and it raises only expression errors. |
| ExprParser.ParseAssignment | src/parser.cpp:137-161 | The same for assignment, whose value side recurses to the right. |
| ExprParser.ParseTier | src/parser.cpp:163-271 | Tier `t`, from `or` down to `* / %`, yields a well-nested tree of rank at least `t`. So no looser operator appears unparenthesised below it. |
| ExprParser.TierTail | src/parser.cpp:167-178 | The operator loop of a tier keeps the left operand's rank at least the tier, so the tree it returns is well nested at that tier. |
| ExprParser.ParseUnary | src/parser.cpp:273-285 | `!`/`-` recurse to the right, and the result binds tighter than any infix operator. |
| ExprParser.ParseCall | src/parser.cpp:287-301 | A call chain has primary rank. |
| ExprParser.CallTail | src/parser.cpp:291-298 | The call loop keeps primary rank and a well-nested tree, and raises only expression errors. |
| ExprParser.FinishCall | src/parser.cpp:303-325 | A call node keeps the given callee and a well-nested argument list. |
| ExprParser.Arguments | src/parser.cpp:307-316 | The argument loop only appends, in source order, and never holds more than 255 arguments. A 256th aborts the call. |
| ExprParser.ParsePrimary | src/parser.cpp:327-355 | A primary is a literal, a variable or a parenthesised expression, and moves forward on success. |
| ExprStops.CallTailEnds | src/parser.cpp:291-298 | The call loop runs while `(` follows: when it succeeds, the next token is not `(`. |
| ExprStops.CallEnds | src/parser.cpp:287-301 | After a successful `call()` the next token is not `(`. |
| ExprStops.UnaryEnds | src/parser.cpp:273-285 | After a successful `unary()` the next token is not `(` either. |
| ExprStops.OperandEnds | src/parser.cpp:163-271 | The operand of a tier (the next tier, or `unary()` for `* / %`) ends in front of a token that is not `(` and is no operator of a tier tighter than the tier. |
| ExprStops.TierEnds | src/parser.cpp:163-271 | After a successful parse of tier `t` the next token is neither `(` nor an operator of tier `t` or of any tighter tier. |
| ExprStops.TailEnds | src/parser.cpp:167-178 | The operator loop of a tier, entered where its operand ended, runs while an operator of its own tier follows. When it succeeds the next token is neither `(` nor an operator of the tier or of any tighter tier. |
| ExprStops.AssignmentEnds | src/parser.cpp:137-161 | After a successful `assignment()` the next token is no infix operator, not `(` and not `=`; a further `=` would have been taken as a nested assignment. |
| ExprStops.ExpressionEnds | src/parser.cpp:133-135 | After a successful `expression()` the next token is no infix operator, not `(` and not `=`. |
| ExprYield.ExpressionYield | src/parser.cpp:133-135 | The parse keeps the input: the tree an expression parse returns, read left to right, spells exactly the kinds of the tokens it consumed. |
| ExprYield.AssignmentYield | src/parser.cpp:137-161 | The same for assignment. The name (or `obj.name`), `=` and the value spell the consumed tokens. |
| ExprYield.AssignStep | src/parser.cpp:146-154 | An `Assign` or `Set` node spells its target, `=`, and its value, in the order they were read. |
| ExprYield.TierYield | src/parser.cpp:163-271 | An infix tier's tree spells the consumed tokens. |
| ExprYield.OperandYield | src/parser.cpp:163-271 | The operand a tier parses spells the consumed tokens. |
| ExprYield.TierTailYield | src/parser.cpp:167-178 | Each round of the operator loop spells left operand, operator, right operand. |
| ExprYield.UnaryYield | src/parser.cpp:273-285 | A prefix operator node spells the operator, then its operand. |
| ExprYield.CallYield | src/parser.cpp:287-301 | A call chain spells the consumed tokens. |
| ExprYield.CallTailYield | src/parser.cpp:291-298 | Every further call in the chain spells callee, `(`, arguments, `)`. |
| ExprYield.FinishCallYield | src/parser.cpp:303-325 | A call with or without arguments spells callee, `(`, the comma-separated arguments, and `)`. |
| ExprYield.ArgsCallYield | src/parser.cpp:306-324 | A call with arguments spells them between its parentheses. |
| ExprYield.CloseCall | src/parser.cpp:318-324 | The `)` that `consume` finds closes the call node's yield. |
| ExprYield.ArgumentsYield | src/parser.cpp:307-316 | The arguments the loop appends spell, comma-separated, the tokens it consumed. |
| ExprYield.PrimaryYield | src/parser.cpp:327-355 | A literal or variable spells its one token. A grouping spells `(`, its inner expression, `)`. |
| ExprYield.GroupingYield | src/parser.cpp:342-352 | The grouping case of `primary`. |
| Precedence.Atom | src/parser.cpp:333-337 | The only tree the parser can build that spells one number is that literal. |
| Precedence.Three | src/parser.cpp:163-271 | The only such tree that spells `n op n` is one infix node over two literals, at the operator's tier. |
| Precedence.Five | src/parser.cpp:163-271 | A tree the parser can build that spells `n op1 n op2 n` is grouped by precedence, then to the left. If `op1` binds at least as tightly it is `(n op1 n) op2 n`, otherwise `n op1 (n op2 n)`. |
| Precedence.FiveInfix | src/parser.cpp:163-271 | The top node of such a tree carries `op2` over `n op1 n`, or `op1` over `n op2 n`, as the tiers dictate. |
| Precedence.ParsedGrouping | src/parser.cpp:163-271 | Whenever an expression parse consumes exactly `n op1 n op2 n`, it returns the tree Five describes. ChainExample.LeftAssociative and SumExample.MulBindsTighter give token streams on which the parse does consume exactly those five tokens. |
| SumExample.NumberOperand | src/parser.cpp:273-301 | A number that is not followed by `(` is a complete operand for the multiplicative tier. It is the literal, and the cursor moves past it. |
| SumExample.TightTier | src/parser.cpp:254-271 | Started at `2` in `1 + 2 * 3`, the multiplicative tier reads `2 * 3`. |
| SumExample.FirstOperand | src/parser.cpp:254-271 | Started at `1`, the multiplicative tier stops at `+`. |
| SumExample.LooseTier | src/parser.cpp:236-252 | The additive tier folds `1` with `2 * 3`, giving `1 + (2 * 3)`. |
| SumExample.UpperTiers | src/parser.cpp:163-234 | The comparison, equality, `and` and `or` tiers pass that sum up unchanged. |
| SumExample.MulBindsTighter | src/parser.cpp:133-161 | Every token stream of kinds `n + n * n` then END parses as an expression to `n + (n * n)` and consumes the five tokens. |
| SumExample.Witness | src/parser.cpp:133-161 | The concrete line `1 + 2 * 3` parses to `1 + (2 * 3)`. |
| ChainExample.PassTier | src/parser.cpp:163-271 | What a tighter tier parsed is what every looser tier parses, as long as the next token is no operator of the looser tier or of a tighter one. |
| ChainExample.LoneUnary | src/parser.cpp:133-285 | A unary expression followed by no infix operator and no `=` is the whole expression, unchanged. |
| ChainExample.NameOperand | src/parser.cpp:338-339 | A name not followed by `(` is a unary operand on its own: the variable, and the cursor moves past it. |
| ChainExample.OneArgument | src/parser.cpp:303-325 | The argument list `x)`, entered after `(`, gives a call of the given callee with the single argument `x`, keeps the `)` token, and moves past it. |
| ChainExample.CallChain | src/parser.cpp:287-301 | For every token stream of kinds `f ( x ) ( y )` followed by a token other than `(`, `call()` returns `f(x)(y)`: the second `(` wraps the inner call `f(x)` as the callee of the outer call, whose argument is `y`, and the loop stops after the last `)`. |
| ChainExample.CallChainExpression | src/parser.cpp:133-301 | The same stream, followed by a token that is no infix operator and not `=`, parses as a whole expression to `f(x)(y)`. |
| ChainExample.NumberAt | src/parser.cpp:163-301 | A number followed by a token that is not `(` and is no operator tighter than tier `t` is, on its own, the operand of tier `t`. |
| ChainExample.NumberFold | src/parser.cpp:167-178 | One turn of a tier's loop over an operator of that tier and a number folds them into the left operand. |
| ChainExample.FoldsLeft | src/parser.cpp:163-271 | For every tier `t`, tier `t` reads `n op1 n op2 n`, with both operators of tier `t`, as `(n op1 n) op2 n` and consumes the five tokens. |
| ChainExample.LeftAssociative | src/parser.cpp:133-271 | For every tier, a token stream of kinds `n op1 n op2 n`, with both operators of that tier, followed by a token that is no infix operator, not `(` and not `=`, parses as an expression to `(n op1 n) op2 n`. Every infix tier is left-associative. |
| ChainExample.DifferenceWitness | src/parser.cpp:236-252 | The concrete line `1 - 2 - 3;` parses to `(1 - 2) - 3` and stops at `;`. |
| StmtParser.ParseDeclaration | src/parser.cpp:357-419 | A declaration at a token other than END always moves forward. A failed one ends resynchronised at a sync point, and it raises only parser errors. |
| StmtParser.ParseStatement | src/parser.cpp:445-462 | A statement parse stays in the stream, moves forward on success, and raises only parser errors. |
| StmtParser.ParseVarDeclaration | src/parser.cpp:421-443 | A `let` parse stays in the stream, moves forward on success and raises only parser errors. A success is a Var statement named by the identifier right after the keyword. |
| StmtParser.Initializer | src/parser.cpp:427-435 | The initializer is present exactly when `=` follows the name. When absent nothing is consumed; when present it is exactly the expression parsed right after the `=`, ending where that expression ends. A failure happens only after `=` and is an expression error. |
| StmtParser.ParsePrint | src/parser.cpp:464-475 | A `print` parse stays in the stream, moves forward on success and raises only parser errors. A success is a Print statement. |
| StmtParser.ParseExpressionStatement | src/parser.cpp:477-488 | The same for an expression statement, whose success is an Expression statement. |
| StmtParser.ParseBlock | src/parser.cpp:490-506 | A block parse stays in the stream, moves forward on success and raises only parser errors. A success is a Block statement, and the last token consumed is `}`. |
| StmtParser.BlockItems | src/parser.cpp:493-505 | The item loop stops at `}` or END, only appends, and aborts at the first failed declaration, which has already resynchronised. |
| StmtParser.BlockItemsFrom | src/parser.cpp:493-505 | The loop does not depend on the items it was given. Started with `acc`, it returns `acc` followed by exactly the items it returns when started empty, and stops or fails at the same place with the same error. |
| StmtParser.ParseIf | src/parser.cpp:508-537 | An `if` parse stays in the stream, moves forward on success and raises only parser errors. A success is an If statement. |
| StmtParser.ElseBranch | src/parser.cpp:525-533 | A successful else-branch consumes nothing exactly when no `else` follows. It fails only after an `else`, with a parser error. |
| StmtParser.ParenCondition | src/parser.cpp:509-519 | A condition stays in the stream and moves forward on success. A success is a well-nested expression, read from a `(` to a `)`, and a failure is an expression error. |
| StmtParser.ParseWhile | src/parser.cpp:539-559 | A `while` parse stays in the stream, moves forward on success and raises only parser errors. A success is a While statement. |
| StmtParser.ParseFunction | src/parser.cpp:571-606 | An `fn` parse stays in the stream, moves forward on success and raises only parser errors. A success is a Function statement named by the identifier right after the keyword. |
| StmtParser.ParamList | src/parser.cpp:581-598 | A parameter list moves forward on success. It has at most 255 parameters, all identifiers. Its only errors are UnexpectedToken and TooManyParameters. |
| StmtParser.Parameters | src/parser.cpp:583-593 | The loop keeps the given parameters in front, adds at least one identifier, and never holds more than 255. It ends just after the last parameter it adds, one name and one comma per parameter, where no comma follows. TooManyParameters is reported at the token just consumed, the comma. Its only errors are UnexpectedToken and TooManyParameters. |
| StmtParser.VarRest | src/parser.cpp:427-442 | After the name, a success is a Var statement with that name. The last token consumed is `;`, and the initializer is what the initializer parse returned right in front of it. |
| StmtParser.ParamsOrder | src/parser.cpp:583-593 | The k-th parameter the loop adds is the token 2k places after where it started. A comma follows every added parameter except the last. |
| StmtParser.AlternatingIndex | src/parser.cpp:583-593 | A run of names that alternate with commas, read index by index: name `i` is the token `2i` places on, and a comma sits between consecutive names. |
| StmtParser.ParamsAlternate | src/parser.cpp:583-593 | The parameters the loop adds alternate with commas from where it started. |
| StmtParser.ParamsStep | src/parser.cpp:583-593 | A successful loop turn reads an identifier. With a comma after it, the loop goes on two tokens later with that name appended; without one, the loop ends with that name appended. |
| StmtParser.VarParts | src/parser.cpp:421-443 | A `let` succeeds exactly when an identifier, an initializer and `;` follow. On success it ends just after the `;`, and its initializer is what the initializer parse returned right after the name. |
| StmtParser.PrintParts | src/parser.cpp:464-475 | `print` succeeds exactly when an expression follows and is followed by `;`. The Print statement holds that expression, and the parse ends just after the `;`. |
| StmtParser.ExpressionStmtParts | src/parser.cpp:477-488 | An expression statement succeeds exactly when the expression parses and is followed by `;`. It holds that expression and ends just after the `;`. |
| StmtParser.BlockParts | src/parser.cpp:490-506 | A block succeeds exactly when its item loop succeeds and stops at `}`. The Block statement holds the loop's items, and the parse ends just after the `}`. |
| StmtParser.IfParts | src/parser.cpp:508-537 | `if` succeeds exactly when the parenthesised condition, the then-branch and the else-branch all parse. The If statement holds the condition, the statement parsed right after `)` as the then-branch, and the else-branch parsed right after that statement, where the parse ends. |
| StmtParser.ElseParts | src/parser.cpp:525-533 | Without `else` the branch is absent and nothing is consumed. With `else` the result is exactly that of the statement parsed after the `else`, success or failure. |
| StmtParser.ParenParts | src/parser.cpp:509-519 | A condition's result is the expression parsed from the token after `(`, which ends in front of the `)`. |
| StmtParser.ParenSucceeds | src/parser.cpp:509-519 | A condition succeeds exactly when `(`, an expression and `)` follow one another. |
| StmtParser.WhileParts | src/parser.cpp:539-559 | `while` succeeds exactly when the condition and the body parse. The While statement holds the condition and the statement parsed right after `)`, and ends where that statement ends. |
| StmtParser.FunctionParts | src/parser.cpp:571-606 | `fn` succeeds exactly when an identifier, a parameter list and a body follow. Its parameters are those of the list parsed after the name, and its body is the statement parsed right after that list, where the parse ends. |
| StmtParser.ParamListParts | src/parser.cpp:581-598 | A successful list runs from `(` to just after `)`. It is empty exactly when `)` follows `(` at once; otherwise it is what the parameter loop returns from the first parameter, which ends in front of the `)`. |
| StmtParser.ParamListSucceeds | src/parser.cpp:581-598 | A list succeeds exactly when `(` is followed by `)` at once, or by a parameter loop that succeeds and is followed by `)`. |
| StmtParser.DeclarationShaped | src/parser.cpp:357-419 | Every statement a declaration builds has a shape the parser can produce, at any depth. Expressions are well nested, names are identifiers, functions have at most 255 parameters, and no Break or Return node exists. |
| StmtParser.StatementShaped | src/parser.cpp:445-462 | The same for `statement()`. |
| StmtParser.VarShaped | src/parser.cpp:421-443 | The same for `let`. |
| StmtParser.PrintShaped | src/parser.cpp:464-475 | The same for `print`. |
| StmtParser.ExpressionShaped | src/parser.cpp:477-488 | The same for expression statements. |
| StmtParser.BlockShaped | src/parser.cpp:490-506 | The same for blocks. |
| StmtParser.BlockItemsShaped | src/parser.cpp:493-505 | Every item a block collects has a producible shape. |
| StmtParser.IfShaped | src/parser.cpp:508-537 | The same for `if`. |
| StmtParser.ElseShaped | src/parser.cpp:525-533 | The same for the else branch. |
| StmtParser.WhileShaped | src/parser.cpp:539-559 | The same for `while`. |
| StmtParser.FunctionShaped | src/parser.cpp:571-606 | The same for `fn`. |
| StmtYield.DeclarationSpelled | src/parser.cpp:357-419 | The statement parser keeps the input: the statement a declaration returns, read left to right, spells exactly the kinds of the tokens it consumed. Keywords, parentheses, braces, `=`, commas and `;` spell their own kinds. A statement with no node spells its keyword, and a null else-branch spells nothing or `else` with such a keyword. |
| StmtYield.StatementSpelled | src/parser.cpp:445-462 | The same for `statement()`. |
| StmtYield.VarSpelled | src/parser.cpp:421-443 | A Var statement spells `let`, its name, `=` and the initializer if it has one, and `;`. |
| StmtYield.InitializerSpelled | src/parser.cpp:427-435 | An initializer spells `=` and its value, or nothing when there is none. |
| StmtYield.PrintSpelled | src/parser.cpp:464-475 | A Print statement spells `print`, its expression and `;`. |
| StmtYield.ExpressionStmtSpelled | src/parser.cpp:477-488 | An expression statement spells its expression and `;`. |
| StmtYield.BlockSpelled | src/parser.cpp:490-506 | A Block spells `{`, its items one after another, and `}`. |
| StmtYield.BlockItemsSpelled | src/parser.cpp:493-505 | The items of the loop spell, in order, the tokens it consumed up to the `}`. |
| StmtYield.IfSpelled | src/parser.cpp:508-537 | An If spells `if`, its parenthesised condition, its then-branch, and then its else-branch. |
| StmtYield.ElseSpelled | src/parser.cpp:525-533 | An else-branch spells nothing when there is no `else`, and otherwise `else` and its statement. |
| StmtYield.ParenSpelled | src/parser.cpp:509-519 | A condition spells `(`, its expression and `)`. |
| StmtYield.WhileSpelled | src/parser.cpp:539-559 | A While spells `while`, its parenthesised condition and its body. |
| StmtYield.FunctionSpelled | src/parser.cpp:571-606 | A Function spells `fn`, its name, its parenthesised parameters and its body. |
| StmtYield.ParamListSpelled | src/parser.cpp:581-598 | A parameter list spells `(`, the names separated by commas, and `)`. |
| StmtYield.ParametersSpelled | src/parser.cpp:583-593 | The names the loop adds spell, comma separated, the tokens it consumed. |
| ParserFacts.PrimaryRejects | src/parser.cpp:353-354 | A token that cannot begin an expression fails `primary`, `call` and `unary` with UnexpectedToken "primary expression", at that token, without moving. |
| ParserFacts.TierRejects | src/parser.cpp:163-271 | That failure passes unchanged through every infix tier. |
| ParserFacts.ExpressionRejects | src/parser.cpp:133-161 | An expression cannot begin with such a token. The parse fails there and does not move. |
| ParserFacts.NullStatements | src/parser.cpp:445-462 | `for`, `break` and `return` in statement position consume only their keyword and yield no node. |
| ParserFacts.ForDeclaration | src/parser.cpp:374-380 | `for` as a declaration consumes only its keyword and yields no node. |
| ParserFacts.BreakOutsideStatement | src/parser.cpp:414-418 | `break` and `return` at top level or directly in a block are read as an expression statement. That fails at the keyword, and the cursor then resynchronises. |
| ParserFacts.BlockErrorResyncs | src/parser.cpp:406-412 | An error inside a block aborts the whole block. The inner declaration has already resynchronised, and the block resynchronises once more from there. |
| ParserFacts.ValidTarget | src/parser.cpp:137-151 | When the target parses as a variable and `=` and a value follow, the result is Assign of the variable's name and that value, ending where the value ends. |
| ParserFacts.InvalidTarget | src/parser.cpp:137-158 | Any other target followed by `=` and a value fails with InvalidAssignment. The error is reported at the token after the value, and the cursor stays there. |
| ParserFacts.NoAssignment | src/parser.cpp:137-160 | Without `=` after the target, the assignment is the target as parsed. |
| ParserFacts.ArgumentLimit | src/parser.cpp:306-316 | After 255 arguments, each followed by a comma, the call fails with TooManyArguments before parsing the next argument. The error is reported at that argument's first token, and the cursor stays there. |
| ParserFacts.ParameterLimit | src/parser.cpp:583-593 | The parameter loop fails with TooManyParameters exactly when 255 parameters, each followed by a comma, have been read. The error is reported at the last of those commas, and the cursor stays just after it. |
| Program.Declarations | src/parser.cpp:50-67 | The run of top-level declarations is empty exactly at END and never longer than the tokens before END. So the loop terminates. |
| Program.ParseTokens | src/parser.cpp:50-67 | `parseTokens` agrees with the run of declarations. It yields the statements only when no declaration failed, and then every statement has a producible shape. Otherwise it yields the diagnostics, one per failed declaration in order, all of them parser errors. |
| Program.Finish | src/parser.cpp:50-67 | At END the accumulated statements and diagnostics are the whole run's. |
| Program.DeclarationsAcceptable | src/parser.cpp:50-67 | Every declaration of the run gives a shaped statement or a parser error. |
| Program.ErrsEmpty | src/parser.cpp:50-67 | There are no diagnostics exactly when every declaration succeeded. Then there is one statement per declaration. |
| Program.LexFeedsParser | src/lexer.cpp:42-55 | Every token stream the lexer produces satisfies the parser's requirement of a non-empty stream ending in END. |

## Left out

- Rendering and exits: error printing in src/error.cpp (ANSI colour, `std::format`, `exit(1)`), the process exit with status 65 in `parseTokens` (modelled as an `Err` holding the diagnostics), and file and argument handling in src/main.cpp. These are I/O.
- Code generation and the printer: every function in them is a stub, so there is no logic to model.
- The stale headers include/lexer.hpp and include/error.hpp: they describe an older API. The model follows src/lexer.hpp and src/error.hpp.
- Embedded NUL characters: the source is taken to contain none. The `'\0'` sentinel of `peek`, `peekNext`, `advance` and the `source[i + 1] == '\0'` test in `getline` then coincide with the end of the buffer.
- Bytes and character classes: the source is taken as a sequence of characters, one column per character, with the ASCII letters, digits and blanks of the C locale. The C++ works on the bytes of a `std::string_view` and counts one column per byte (src/lexer.cpp:63), so a multi-byte UTF-8 character spans several columns. It also passes a plain `char`, which may be negative, to `isalpha` and `isdigit` (src/lexer.cpp:163-180); that is undefined for bytes above 127.
- The undefined dereferences at src/parser.cpp:60 and :294, and the throwing `get<T>` at include/expr.hpp:121: the evident intent is modelled, as described above.
- The string opener's kind, `QUOTE`, does not exist in the enumeration. The opener's token is given the String kind with lexeme `"`. Only its position and lexeme reach an error.
- Field access, `this`, and real `for`/`break`/`return` bodies are not implemented by the code. So no `Get`, `Set` or `This` node is ever built, and `for`/`break`/`return` yield no node.
- `peekNext()` of the parser (src/parser.cpp:79-83) is never called, so it is not modelled.
- Reconstruct.LexRebuildsSource: the round trip is stated only for sources without strings, comments, `/` and unknown characters. A lone `/` gets an empty lexeme, and strings lose their quotes, so the plain concatenation cannot rebuild those.
- Lexer.TokenGood: the lexeme of a Slash token is stated to be empty, not the consumed text, following src/lexer.cpp:155.
- StmtParser.BlockItems: its own contract bounds the items by length only. That the given items are kept in front, item for item, is StmtParser.BlockItemsFrom.
- StmtParser.ParseVarDeclaration: its own contract states the form and the name. When it succeeds, where it ends and which initializer it holds are StmtParser.VarParts.
- StmtParser.ParsePrint: its own contract states the form. When it succeeds and which expression it holds are StmtParser.PrintParts.
- StmtParser.ParseExpressionStatement: its own contract states the form. When it succeeds and which expression it holds are StmtParser.ExpressionStmtParts.
- StmtParser.ParseBlock: its own contract states the form and the closing `}`. When it succeeds and which items it holds are StmtParser.BlockParts.
- StmtParser.ParseIf: its own contract states the form. When it succeeds and which condition and branches it holds are StmtParser.IfParts.
- StmtParser.ElseBranch: its own contract states when it consumes nothing. What it returns after `else` is StmtParser.ElseParts.
- StmtParser.ParenCondition: its own contract states the parentheses and the errors. Which expression it returns is StmtParser.ParenParts, and when it succeeds is StmtParser.ParenSucceeds.
- StmtParser.ParseWhile: its own contract states the form. When it succeeds and which condition and body it holds are StmtParser.WhileParts.
- StmtParser.ParseFunction: its own contract states the form and the name. When it succeeds and which parameters and body it holds are StmtParser.FunctionParts.
- StmtParser.ParamList: its own contract bounds the list and its errors. Its delimiters and contents are StmtParser.ParamListParts, and when it succeeds is StmtParser.ParamListSucceeds.
- StmtParser.Parameters: its own contract states the count, the end position and the errors. Which token each added parameter is, with the commas between them, is StmtParser.ParamsOrder.
- ExprParser.TierTail: its own contract states the rank and well-nestedness of what it folds. Where the loop stops is ExprStops.TailEnds, and that it folds from the left is ChainExample.FoldsLeft and ChainExample.LeftAssociative.
- ExprParser.CallTail: its own contract states the rank of the chain. Where the loop stops is ExprStops.CallTailEnds, and that each further `(` wraps the chain built so far as the callee is ChainExample.CallChain.
- ExprParser.ParseAssignment: its contract states progress, well-nestedness and the error kinds. Which target builds what, and where InvalidAssignment is reported, are stated by ParserFacts.ValidTarget, InvalidTarget and NoAssignment.
- ExprParser.Arguments: its contract keeps the given arguments in front and bounds the list at 255. Where TooManyArguments is reported is ParserFacts.ArgumentLimit, stated only from a full run of arguments to the error, because an argument can itself contain a call that fails the same way.
- StmtYield.DeclarationSpelled: the spelling records kinds only. A statement with no node spells any one of `for`, `break` and `return`, because the tree does not record which keyword it was.
- ExprYield.ExpressionYield: the yield records kinds only, not whole tokens, so it fixes the shape of the tree but not the lexemes of its leaves.
- Concrete evaluations of the lexer on literal inputs: these are left to the general rule lemmas in LexerRules, which cover every input.
