# Graphical calculator: expression compiler

This project models the expression compiler of a graphical calculator. The compiler takes the text of an equation, such as `2+3*x` or `(1-x)^2`, and turns it into an expression tree that the plotting code later evaluates. It has three parts, and each is modelled in Dafny:

- **Tokens and trees** (`tokens.dfy`, `expressions.dfy`). Fixed tables give each of the five operator characters its operator, precedence and associativity. The token constructors derive a token's fields from those tables. The expression tree is `Number | Variable | Infix`, with `Eval`, `ListVariables` and a fully parenthesised `ToString`. Numbers are kept as their literal text. Evaluation takes the numeric reading and the operator application as parameters, so only its structure is proved.
- **Lexer** (`lexer.dfy`). The lexer is a cursor-based scanner with one character of lookahead. It is modelled twice:
  - as functions (`Scan`, `Tokenize`) that say which token starts at a position and where the next one begins;
  - as a `Lexer` class whose methods update the cursor fields step by step, each method proved equal to those functions.
- **Parser** (`parser.dfy`). The parser is a precedence-climbing parser with a parenthesis nesting counter, unary minus and fail-fast handling of invalid tokens. Functions on a `PState` record say what each parser method returns and what state it leaves. The record holds the cursor, the current token, the lookahead and the counter. A `Parser` class with the source's fields implements the same methods with loops and recursion. Each method's contract says it returns what the matching function returns and leaves the state that function leaves.

On top of these functions:

- `parser_properties.dfy` proves general facts about the parser:
  - fail-fast construction;
  - what a primary becomes;
  - a parse can succeed only on a list of at least two tokens;
  - parsing again gives the same result when the first parse left the nesting counter where it found it;
  - a successful parse has checked every token, so a list holding an invalid token never parses;
  - a successful parse of lexer output consumes every token.
- `shapes.dfy` proves what the parser builds for any expression without parentheses or unary minus, whatever its length:
  - the tree holds the operands and operators in input order;
  - every node nests its children as the precedence and associativity tables require.
- `parser_examples.dfy` works through concrete token lists, including `2+3*4`, `2^3^2`, `8-3-2`, `-2^2`, the parenthesised groups `(2+3)*4` and `2*(3+4)`, and the error cases.
- `parenthesis_balance.dfy` holds the finding below and its correction.

Errors are a `Result` datatype with one variant each for an invalid token, a syntax error and "unexpected end of file". Exceptions in the source become `Err` values that propagate to the caller.

In these points the model follows what the code does, which a reader might not expect:

- An operator at index `i` gets the span `i - 1 .. i`, as `Calculator/Lexer.cs:123` computes it.
- In primary position any parenthesis opens a nesting level, whatever its direction (`Calculator/Parser.cs:91-96`). So `")1)"` parses as `1`.
- A minus followed by another operator is a syntax error (`Calculator/Parser.cs:85-86`), so `--5` is rejected.
- `Parse` does not reset the nesting counter (`Calculator/Parser.cs:161-166`). A second `Parse` on the same parser agrees with the first only when the first left the counter where it found it. See "## Findings".

## Model

| member | source | states |
|---|---|---|
| Tokens.Symbol | Calculator/Shared.cs:5-12 | each operator is written as one of the five one-character symbols |
| Tokens.OperatorOf | Calculator/Shared.cs:5-12 | the operator table yields an operator exactly for that operator's one-character symbol |
| Tokens.OperatorsMapKeys | Calculator/Shared.cs:5-12 | a literal is an operator exactly when it is one of `+ - * / ^` |
| Tokens.Precedence | Calculator/Shared.cs:14-21 | precedences lie between 1 and 3, and only Power has 3 |
| Tokens.PrecedenceOrder | Calculator/Shared.cs:14-21 | Plus = Minus = 1, Multiply = Divide = 2, Power = 3 |
| Tokens.Associativity | Calculator/Shared.cs:23-30 | an operator groups to the right exactly when it has the top precedence |
| Tokens.OnlyPowerIsRightAssociative | Calculator/Shared.cs:23-30 | an operator is right-associative exactly when it is Power |
| Tokens.NewOperatorToken | Calculator/Shared.cs:145-153 | an operator token exists exactly when the literal is in the operator table; it keeps the literal and the span |
| Tokens.NewParenthesisToken | Calculator/Shared.cs:95-111 | a parenthesis token exists exactly for `(` and `)`; any other literal is an error; it keeps the literal and the span |
| Tokens.ParenthesisDirection | Calculator/Shared.cs:100-107 | `(` gets direction Left and `)` gets direction Right |
| Tokens.SyntaxErrorFor | Calculator/Shared.cs:343-349 | a syntax error built from one expected kind and a token wraps the kind in a one-element list and copies the token's start, end and type |
| Tokens.SyntaxErrorAt | Calculator/Shared.cs:351-357 | a syntax error built from a list of expected kinds and a token copies the token's start, end and type |
| Tokens.InvalidTokenErrorFor | Calculator/Parser.cs:41-49 | the invalid-token error carries the offending token's span and literal |
| Expressions.Eval | Calculator/Shared.cs:194-280 | a failed evaluation names a variable that occurs in the tree and that the environment does not bind |
| Expressions.EvalFailsOnlyOnUnbound | Calculator/Shared.cs:194-280 | evaluation fails exactly when some variable of the tree is missing from the environment, and it names the first such variable |
| Expressions.EvalReadsOnlyItsVariables | Calculator/Shared.cs:214-217 | two environments that agree on the tree's variables give the same evaluation |
| Expressions.EvalInfixAppliesOperator | Calculator/Shared.cs:263-280 | an infix node evaluates both children and applies its own operator to the two values |
| Expressions.Collect | Calculator/Shared.cs:199-286 | the returned list holds the accumulator's names and the tree's variables, each as often as it occurs |
| Expressions.CollectListsVariables | Calculator/Shared.cs:199-286 | a number returns the accumulator, a variable appends itself after it, and an infix node puts its variables (left subtree, then right) before it, with no deduplication |
| Expressions.VariableList.constructor | Calculator/Shared.cs:284 | a new list is empty |
| Expressions.VariableList.Add | Calculator/Shared.cs:226 | adding a variable appends it at the end of the list, in place |
| Expressions.ListVariables | Calculator/Shared.cs:199-286 | the returned list holds the collected variables; a leaf returns the caller's list object, updated in place, and an infix node returns a fresh list and leaves the caller's list alone |
| Expressions.Show | Calculator/Shared.cs:244-261 | the text of an infix node starts with `(` and ends with `)` |
| Expressions.InfixOccurrences | Calculator/Shared.cs:244-261 | the text of an infix node contains a character once more than its children do when the character is a parenthesis |
| Expressions.ShowFullyParenthesised | Calculator/Shared.cs:244-261 | the text of a tree has one `(` and one `)` per infix node, so every node is fully parenthesised |
| Lexing.IsKind | Calculator/Lexer.cs:58-80 | a character is a number exactly when it is a digit, an operator exactly when it is one of the five symbols, and a parenthesis exactly when it is `(` or `)`; `\0` is none of them |
| Lexing.SkipBlanks | Calculator/Lexer.cs:17-23 | the cursor moves over exactly the run of spaces and tabs |
| Lexing.DigitsEnd | Calculator/Lexer.cs:100-104 | the digit loop passes only digits and stops at the first character that is not one |
| Lexing.NumberEnd | Calculator/Lexer.cs:95-117 | a number consumes at least one character and stays within the input |
| Lexing.ScanAt | Calculator/Lexer.cs:95-147 | at the end of the input the token is Eof with a zero-width span at the input length; otherwise the cursor advances and stays within the input |
| Lexing.Scan | Calculator/Lexer.cs:92-148 | the same after blanks are skipped, so each token other than Eof advances the cursor and lexing terminates |
| Lexing.BlanksProduceNoToken | Calculator/Lexer.cs:94 | scanning from before a run of blanks gives the same token as scanning after it |
| Lexing.ScanNumber | Calculator/Lexer.cs:95-118 | a number token is a maximal digit run, optionally followed by `.` and a digit run that may be empty; its span runs from the first digit to the last character consumed |
| Lexing.ScanSingleCharacter | Calculator/Lexer.cs:119-147 | an operator at index i spans i - 1 .. i; a parenthesis, variable or invalid token spans only its index; a letter followed by a letter is invalid |
| Lexing.TokensFrom | Calculator/Lexer.cs:155-162 | from position i the loop collects at least one and at most one more token than there are characters left |
| Lexing.Tokenize | Calculator/Lexer.cs:150-163 | a text gives at least one token and at most one more than its length |
| Lexing.TokensFromEndWithEof | Calculator/Lexer.cs:150-163 | the tokens from any position end with Eof at the input length, and no earlier token is Eof |
| Lexing.TokenizeEndsWithEof | Calculator/Lexer.cs:150-163 | the token list of a text ends with its only Eof token |
| Lexing.TokenizeCoversInput | Calculator/Lexer.cs:92-163 | the literals of the tokens, concatenated, are the input without its blanks, so no character is lost |
| Lexing.TwoLettersLexAsInvalidThenVariable | Calculator/Lexer.cs:135-147 | `"ab"` lexes as Invalid('a'), Variable('b'), Eof |
| Lexing.Lexer.constructor | Calculator/Lexer.cs:10-15 | the lexer starts with its cursor on the first character |
| Lexing.Lexer.NextToken | Calculator/Lexer.cs:25-44 | the cursor moves one place; the result says whether it is still inside the input; the current character is `\0` past the end; the lookahead is refreshed only while there is a next character |
| Lexing.Lexer.Peek | Calculator/Lexer.cs:46-56 | the lookahead is the next character, or `\0` past the end |
| Lexing.Lexer.Is | Calculator/Lexer.cs:82-85 | classifies the current character as the character classifier does |
| Lexing.Lexer.PeekIs | Calculator/Lexer.cs:87-90 | classifies the next character as the character classifier does |
| Lexing.Lexer.ConsumeWhitespaces | Calculator/Lexer.cs:17-23 | the loop leaves the cursor where the blank-skipping function says |
| Lexing.Lexer.ReadDigits | Calculator/Lexer.cs:100-104 | the loop leaves the cursor at the end of the digit run and appends exactly the digits it passed |
| Lexing.Lexer.ReadNumber | Calculator/Lexer.cs:95-117 | the number token's text is the input between the start and the new cursor, and its span ends one before the cursor |
| Lexing.Lexer.ParseToken | Calculator/Lexer.cs:92-148 | returns the token that `Scan` gives at the old cursor and moves the cursor to where `Scan` says the next token begins |
| Lexing.Lexer.ParseAll | Calculator/Lexer.cs:150-163 | resets the cursor and returns exactly `Tokenize(input)` |
| Lexing.ParseAllTwice | Calculator/Lexer.cs:150-163 | two calls on the same lexer return identical lists |
| Parsing.Advance | Calculator/Parser.cs:30-55 | stepping past the last token is the "unexpected end of file" error; otherwise the step moves the cursor by one and keeps the counter |
| Parsing.LookaheadAnswers | Calculator/Parser.cs:57-67 | the token after the cursor while there is one, and "unexpected end of file" otherwise |
| Parsing.CastOrThrow | Calculator/Parser.cs:107-117 | an operator token passes through unchanged; any other token is a syntax error expecting the given kind at that token |
| Parsing.ClimbsOnThresholds | Calculator/Parser.cs:123-124 | the outer loop test: at threshold 0 it holds exactly for operators and parentheses, above the top precedence only for parentheses, never for numbers, variables, Eof or invalid tokens, and a higher threshold stops at least the tokens a lower one stops |
| Parsing.BindsTighterExactly | Calculator/Parser.cs:144-147 | the inner loop test holds exactly for an operator of higher precedence than `op`, or when both are `^` (the only right-associative operator), and the nested call's raised threshold then accepts that operator |
| Parsing.Primary | Calculator/Parser.cs:79-105 | never moves the cursor back; on success the cursor rests on a token that can end an operand |
| Parsing.Climb | Calculator/Parser.cs:119-159 | never moves the cursor back; when the lookahead is an operator the loop accepts, a successful call consumes at least one token |
| Parsing.Extend | Calculator/Parser.cs:144-153 | the inner loop never moves the cursor back, and a success that starts on an operand ends on one |
| Parsing.ParseFromStart | Calculator/Parser.cs:161-166 | on success the cursor rests, inside the list, on a token that can end an operand |
| Parsing.ParseChecked | Calculator/Parser.cs:168-184 | on success the counter is at most zero and at most one token besides Eof is left unconsumed |
| Parsing.Compile | UI/Form1.cs:29-31 | an invalid first token fails with the invalid-token error, and a text with no token before Eof fails |
| Parsing.Parser.Init | Calculator/Parser.cs:12-28 | the constructors start with the cursor before the first token, the counter at zero and no lookahead |
| Parsing.Parser.FromTokens | Calculator/Parser.cs:12-19 | construction from a token list fails exactly as the first `NextToken` fails, and otherwise leaves the state that step leaves |
| Parsing.Parser.FromLexer | Calculator/Parser.cs:21-28 | the same for the lexer's token list, with the lexer's input as the literal |
| Parsing.Parser.NextToken | Calculator/Parser.cs:30-55 | returns what `Advance` returns and leaves the state it leaves |
| Parsing.Parser.Peek | Calculator/Parser.cs:57-67 | returns the lookahead while a next token exists, and "unexpected end of file" otherwise |
| Parsing.Parser.Is | Calculator/Parser.cs:69-72 | holds exactly when the current token is of the constructor the given kind names |
| Parsing.Parser.PeekIs | Calculator/Parser.cs:74-77 | fails exactly when no next token exists; otherwise says whether the next token has the given kind |
| Parsing.Parser.ParsePrimary | Calculator/Parser.cs:79-105 | returns what `Primary` returns and leaves the state it leaves |
| Parsing.Parser.ParseNegation | Calculator/Parser.cs:85-90 | the unary-minus branch, including the syntax error when an operator follows the minus, returns and leaves what `Primary` does |
| Parsing.Parser.ParseGroup | Calculator/Parser.cs:91-96 | the parenthesis branch returns and leaves what `Primary` does: one level deeper, a primary, then the climbing loop at the counter's new level |
| Parsing.Parser.ParseToken | Calculator/Parser.cs:119-159 | the loop returns what `Climb` returns and leaves the state it leaves |
| Parsing.Parser.ExtendRhs | Calculator/Parser.cs:144-153 | the inner loop returns what `Extend` returns and leaves the state it leaves |
| Parsing.Parser.ParseAll | Calculator/Parser.cs:161-166 | returns what `ParseFromStart` returns and leaves the state it leaves |
| Parsing.Parser.Parse | Calculator/Parser.cs:168-184 | returns what `ParseChecked` returns and leaves the state it leaves |
| Parsing.ParseText | UI/Form1.cs:29-31 | lexing a text, building a parser and parsing gives `Compile(text)` |
| ParserProperties.AdvanceFailsFast | Calculator/Parser.cs:30-50 | an invalid new current token is reported first, then an invalid lookahead; otherwise the step succeeds |
| ParserProperties.ConstructionFailsFast | Calculator/Parser.cs:12-28 | construction fails on an empty list, or on an invalid token among the first two tokens, and otherwise succeeds |
| ParserProperties.ParseRejectsInvalidTokens | Calculator/Parser.cs:30-55 | every `NextToken` checks the new current token and the lookahead, so a successful `Parse` has checked every token of the list: a list with an invalid token anywhere never parses |
| ParserProperties.CompiledTextsLexCleanly | UI/Form1.cs:29-31 | a text compiles only when no token the lexer produces for it is invalid |
| ParserProperties.PrimaryOfSingleToken | Calculator/Parser.cs:79-104 | a number token becomes a number node, a variable token a variable node, and Eof, an invalid token or an operator other than minus is a syntax error expecting {Number, Parenthesis, Variable} at that token |
| ParserProperties.UnaryMinus | Calculator/Parser.cs:85-90 | a minus followed by an operator is a syntax error at the minus; otherwise it becomes `-1 * primary` |
| ParserProperties.EitherParenthesisOpens | Calculator/Parser.cs:91-96 | a parenthesis of either direction in primary position opens a group: followed by a number and `)`, it yields that number, leaves the cursor on the `)` and restores the counter |
| ParserProperties.ClimbOnParenthesis | Calculator/Parser.cs:123-138 | a `)` lookahead inside a group is consumed and lowers the counter; any other parenthesis lookahead, when the call's level is not above the counter, is a syntax error expecting an operator |
| ParserProperties.ParseNeedsTwoTokens | Calculator/Parser.cs:161-166 | a parse can succeed only on a list of at least two tokens |
| ParserProperties.ParseRepeatable | Calculator/Parser.cs:161-184 | a successful parse depends only on the counter it starts from, not on the cursor |
| ParserProperties.ParseAgain | Calculator/Parser.cs:161-184 | parsing again from the state a successful parse left gives the same result when the counter came back to its starting value |
| ParserProperties.ParseTwice | UI/Form1.cs:29-32 | calling `Parse` twice on one parser: the first result is the parse, and the second equals it when the counter came back |
| ParserProperties.ParseConsumesEveryToken | Calculator/Parser.cs:168-184 | a successful parse of lexer output stops with the cursor on the last token before Eof, and the counter is at most zero |
| Shapes.EqualPrecedenceSameAssociativity | Calculator/Shared.cs:14-30 | operators of equal precedence have the same associativity |
| Shapes.ClimbSimple | Calculator/Parser.cs:119-159 | on a parenthesis-free expression the climbing loop succeeds; the tree it returns reads as the left operand followed by the tokens consumed; every node respects the tables; it stops at the first operator below its threshold |
| Shapes.ExtendSimple | Calculator/Parser.cs:144-153 | the right-hand operand grows over exactly the operators that bind tighter than the pending one, and the result still fits as that operator's right child |
| Shapes.ClimbStops | Calculator/Parser.cs:123-124 | the loop returns its operand unchanged when the lookahead is not an operator at or above the threshold |
| Shapes.ExtendStops | Calculator/Parser.cs:144-147 | the inner loop returns the operand unchanged when the lookahead does not bind tighter |
| Shapes.SimpleExpressionsParse | Calculator/Parser.cs:119-159 | for every token list of operands and operators ending in Eof, parsing succeeds; the tree reads as the tokens in order; every node nests its children as precedence and associativity require |
| Shapes.SimpleTextsCompile | Calculator/Parser.cs:119-159 | the same for every text whose tokens are only numbers, variables and operators in alternation |
| ParserExamples.MultiplicationBindsTighter | Calculator/Parser.cs:144-153 | `2+3*4` parses as `(2 + (3 * 4))` |
| ParserExamples.PowerGroupsRight | Calculator/Parser.cs:144-153 | `2^3^2` parses as `(2 ^ (3 ^ 2))` |
| ParserExamples.SubtractionGroupsLeft | Calculator/Parser.cs:123-155 | `8-3-2` parses as `((8 - 3) - 2)` |
| ParserExamples.UnaryMinusBindsToPrimary | Calculator/Parser.cs:85-90 | `-2^2` parses as `(((-1) * 2) ^ 2)` |
| ParserExamples.GroupOverridesPrecedence | Calculator/Parser.cs:91-96 | `(2+3)*4` parses as `((2 + 3) * 4)` with the counter back at zero |
| ParserExamples.GroupAsRightOperand | Calculator/Parser.cs:91-96 | `2*(3+4)` parses as `(2 * (3 + 4))` with the counter back at zero |
| ParserExamples.DoubleMinusRejected | Calculator/Parser.cs:101-104 | `--5` is a syntax error expecting {Number, Parenthesis, Variable} at the first minus (span -1 .. 0) |
| ParserExamples.ParenthesisAfterOperandRejected | Calculator/Parser.cs:107-117 | `2(3)` is a syntax error expecting an operator at the `(` |
| ParserExamples.UnclosedParenthesisRejected | Calculator/Parser.cs:171-175 | `(2+3` is a syntax error expecting a parenthesis, just past the last token, where Eof was found |
| ParserExamples.TrailingTokenRejected | Calculator/Parser.cs:176-180 | `2 3` is a syntax error expecting Eof where a number was found |
| ParserExamples.ClosingParenthesisOpens | Calculator/Parser.cs:91-96 | `)1)` parses as `1` |
| ParserExamples.SurplusCloseAtTopRejected | Calculator/Parser.cs:126-138 | `(1))` is a syntax error expecting an operator at the second `)` |
| ParenthesisBalance.SurplusCloseAccepted | Calculator/Parser.cs:126-131 | `(1+2*3))` parses as `(1 + (2 * 3))` and leaves the counter at -1 |
| ParenthesisBalance.ReparseAtMinusOne | Calculator/Parser.cs:133-138 | starting from counter -1, the tokens of `(1+2*3))` are a syntax error expecting an operator at the first `)` |
| ParenthesisBalance.SurplusCloseFailsWhenParsedAgain | UI/Form1.cs:31-32 | on that text the second `Parse` fails while the first succeeded |
| ParenthesisBalance.ParseBalanced | Calculator/Parser.cs:168-184 | the corrected parse succeeds only with the counter at zero and at most one token besides Eof left unconsumed |
| ParenthesisBalance.BalancedAcceptsExactlyLevelZero | Calculator/Parser.cs:168-184 | the corrected parse succeeds exactly when `Parse` succeeds with the counter at zero, and then returns the same tree |
| ParenthesisBalance.BalancedParseRepeatable | UI/Form1.cs:31-32 | from a zero counter, parsing again with the corrected parse always gives the first result |
| ParenthesisBalance.BalancedRejectsSurplusClose | Calculator/Parser.cs:168-184 | the corrected parse rejects `(1+2*3))` at the surplus `)`, expecting Eof |

## Left out

- Floating point is not modelled. Number literals stay as text, and `double.Parse` is not modelled. Evaluation takes the reading of a literal and the application of an operator as parameters, so `+ - * /` and `Math.Pow` are uninterpreted.
- Expressions.ListVariables: a returned list is modelled as a `VariableList` object, but lists are compared by their contents rather than by which list object a caller later shares.
- The text of error messages (`Message` properties) and the serialization constructors are not modelled.
- The debugging `ToString` overrides on tokens are not modelled.
- Expressions.Show: prints a number's literal text; the source prints the double's culture-dependent formatting (`Calculator/Shared.cs:189-192`), so `2.50`, `007` and `1.` print as `2.5`, `7` and `1` there.
- The `Precedence` field of a parenthesis token, which is always 5, is not modelled; the parser never reads it.
- Characters are Unicode scalar values. A character outside the Basic Multilingual Plane is one Invalid token here, while the source's UTF-16 indexing splits it into two and shifts every later span.
- Variable and invalid tokens hold exactly one character, the only literals the lexer builds. The source's token-list constructor would also accept longer literals, and an empty one would fail on `Literal[0]`; no caller passes such tokens.
- Recursion depth is unbounded. In the source, deep nesting of parentheses or unary minus can exhaust the stack through the mutual recursion of `ParsePrimary` and `ParseToken`.
- Indices are unbounded integers. The 32-bit `int` limit on input length is not modelled.
- Lexing.Lexer: the `\0` sentinel is modelled as the current character past the end. A `\0` inside the input is treated as an ordinary invalid character, as in the source.
- The user interface is not part of this model. That covers the WinForms drawing, event handlers, viewport arithmetic and the `Trim` the form applies before lexing. Only the two `Parse` calls of `UI/Form1.cs` are modelled, because they show the finding.
- `Calculator/Program.cs` is an older, superseded copy of the lexer and parser and is not part of this model.
- Shapes.SimpleExpressionsParse: the shape theorem covers expressions without parentheses or unary minus. Those two forms are covered only by the lemmas on primaries and by the worked examples, among them `(2+3)*4` and `2*(3+4)`; no general lemma says what a parenthesised group of any length parses to.
- The worked examples in `parser_examples.dfy` and `parenthesis_balance.dfy` are stated on the token lists the lexer produces for those texts, not on the texts themselves.
- Exceptions other than the three error kinds are not distinguished. A missing variable during evaluation is a `MissingVariable` result rather than a `KeyNotFoundException`.

## Findings

| source | as written | input that shows it | evidently intended | confidence | as-written member | corrected member |
|---|---|---|---|---|---|---|
| Calculator/Parser.cs:126-131 | The nesting counter can go below zero. A `)` consumed by a nested climbing call lowers the counter; the enclosing call, still at the group's level, then takes one more `)` and lowers it again. `Parse` only rejects a counter above zero (line 171). | `(1+2*3))` is accepted as `(1 + (2 * 3))` with the counter at -1. The second `Parse` of `UI/Form1.cs:31-32` on the same parser then fails with a syntax error expecting an operator at the first `)`. `(1))` is rejected. | A surplus `)` is a syntax error, so a successful parse leaves the counter at zero and a second parse agrees with the first | not executed | ParenthesisBalance.SurplusCloseFailsWhenParsedAgain | ParenthesisBalance.BalancedParseRepeatable |
