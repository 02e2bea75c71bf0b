# Interpreter pattern: a verified model of the arithmetic interpreter

This project models the small arithmetic interpreter in
`19.Interpreter_pattern_2.h`. It has three stages.

- `lex` turns a character string into a list of `Token`s.
  - `+ - ( )` each become one token.
  - A maximal run of digits becomes one integer token.
  - Multiplication and division get their precedence from a trick. On `*` or `/`, a `(` is inserted before the previously emitted token. A pending flag then appends a `)` after the next integer token.
- `parse` fills one `BinaryOperation` node per token slice, left to right.
  - An operand is a literal, or the parse of the slice between a `(` and the first `)` after it.
  - An operand goes to the left child if that is empty, otherwise to the right child.
  - Every operator token overwrites the node's operator.
- `eval` walks the resulting tree.

Modules, one per file:

- `Wrappers` (`wrappers.dfy`): `Option` and `Result`.
- `Tokens` (`tokens.dfy`): token kinds, tokens, and digit strings with their decimal value.
- `Lexer` (`lexer.dfy`): one lexing step `Step` and its iteration `LexFrom`/`Lexed`. `Lex` is the imperative loop, with the inner `find_if` loop, and is proved to return `Lexed`.
- `LexerProperties` (`lexer_lemmas.dfy`): when lexing succeeds, and the fact that a successful lexing keeps every character other than a parenthesis, in order. It also gives the token lists of the typical inputs.
- `Ast` (`ast.dfy`): the expression tree, C++ truncating division, and `Eval`.
- `Parser` (`parser.dfy`): `ParseLevel`/`Parsed` specify the loop. `Parse` is the imperative loop with the recursive call and is proved to return `Parsed`.
- `ParserProperties` (`parser_lemmas.dfy`): an independent reference for what a parse yields, and an exact condition for when it succeeds.
- `Interpreter` (`interpreter.dfy`): lex, then parse, then evaluate, with end-to-end results for `a+b`, `a-b`, `a*b`, `a/b`, `(a+b)`, `(a-b)`, `(a*b)` and `(a/b)`.

Apart from integer overflow (see "Left out"), the source has no defined result in four cases. The model turns each of them into an explicit error result.

- **An unrecognised character.** `find_if` returns the iterator itself, and `it = --firstNotInt` steps back one character (line 53).
  - At the first character, that decrements `begin()`, which is undefined.
  - At any later character, the loop's `it++` returns to the same character. The loop therefore spins forever, appending an integer token with empty text each time, plus a `)` the first time if the flag is set (lines 48-52).
  - The model returns `UnrecognizedCharacter(pos)`.
- **`*` or `/` with an empty token buffer.** The source inserts before `end()-1` of an empty vector. The model returns `NoPrecedingToken(pos)`.
- **A `(` with no later `)`.** The source steps the iterator past `end()`. The model returns `UnmatchedParen`.
- **Division by zero.** The model returns `DivisionByZero`.

Where the code does not fail, neither does the model. That includes:

- an empty slice, which evaluates to 0
- more than two operands at one level: the last operand replaces the right child
- a stray `)`, which the parser skips

The code raises no error in these cases, and neither does the model.

The parser is not depth-aware. The lexer wraps `a*b` in parentheses, so `(a*b)` lexes to `( ( a * b ) )`. That `(` is not closed before the next `(`, so parsing fails (`InterpretParenthesisedProduct`). `ParsedOkIff` states the general rule.

## Model

| member | source | states |
|---|---|---|
| Tokens.DigitsValue | 19.Interpreter_pattern_2.h:96-97 | the value `stoi` gives an integer token's digit text, which is less than 10 to the number of digits |
| Tokens.DigitsFitInt | 19.Interpreter_pattern_2.h:96-97 | a digit string of at most nine digits has a value within the 32-bit `int` range, so `stoi` does not overflow on it |
| Lexer.PunctuationToken | 19.Interpreter_pattern_2.h:30-33 | the token for `+ - ( )`: its kind matches the character and its text is that one character |
| Lexer.MultiplicativeToken | 19.Interpreter_pattern_2.h:36-41 | the token for `*` or `/`: kind `Multi` or `Divd`, and the one character as text |
| Lexer.Lex | 19.Interpreter_pattern_2.h:25-58 | the loop returns exactly `Lexed(input)`: the token list, or the first lexing error |
| Lexer.Lexed | 19.Interpreter_pattern_2.h:25-58 | every integer token in a successful result has a non-empty digit string as text |
| Lexer.LexFrom | 19.Interpreter_pattern_2.h:28-56 | lexing the rest of the input keeps the buffer well formed and never shrinks it |
| Lexer.Step | 19.Interpreter_pattern_2.h:29-55 | one iteration consumes at least one character, stays within the input, grows the buffer and keeps it well formed |
| Lexer.ScanDigits | 19.Interpreter_pattern_2.h:45-47 | the end of the maximal digit run: every character before it is a digit, and the character at it is not, unless it is the end of the input |
| Lexer.InsertBeforeLast | 19.Interpreter_pattern_2.h:35 | the buffer grows by one; earlier tokens keep their order; the new token sits just before the previously last token |
| Lexer.StepOnPunctuation | 19.Interpreter_pattern_2.h:30-33 | `+ - ( )` append one token of the matching kind whose text is that character; the flag is unchanged; scanning moves on by one |
| Lexer.StepOnOperator | 19.Interpreter_pattern_2.h:34-43 | `*` or `/` fails exactly when the buffer is empty; otherwise `(` goes before the last token, the operator is appended, and the flag is set |
| Lexer.StepOnDigit | 19.Interpreter_pattern_2.h:44-53 | a maximal digit run becomes one integer token with exactly that text; a `)` follows it if the flag was set; the flag is cleared; scanning resumes at the first non-digit |
| Lexer.StepOnUnrecognized | 19.Interpreter_pattern_2.h:44-53 | a character outside `0-9 + - * / ( )` is an error at its position |
| LexerProperties.LexedOkIff | 19.Interpreter_pattern_2.h:28-55 | lexing succeeds if and only if every character is recognised and the input does not start with `*` or `/` |
| LexerProperties.LexedKeepsCharacters | 19.Interpreter_pattern_2.h:28-55 | if lexing succeeds, the token texts in order, with parentheses dropped, spell the input with its parentheses dropped |
| LexerProperties.LexNumber | 19.Interpreter_pattern_2.h:44-53 | a digit string lexes to one integer token |
| LexerProperties.LexSum | 19.Interpreter_pattern_2.h:28-55 | `a+b` and `a-b` lex to integer, operator, integer |
| LexerProperties.LexProduct | 19.Interpreter_pattern_2.h:34-52 | `a*b` and `a/b` lex to `( a op b )` |
| LexerProperties.LexParenthesised | 19.Interpreter_pattern_2.h:28-55 | `(a+b)` and `(a-b)` lex to `( a op b )` |
| LexerProperties.LexParenthesisedProduct | 19.Interpreter_pattern_2.h:28-55 | `(a*b)` and `(a/b)` lex to `( ( a op b ) )` |
| Ast.TruncDiv | 19.Interpreter_pattern_2.h:83 | C++ integer division: the remainder is smaller than the divisor in magnitude and never has the sign opposite to the dividend; for a non-negative dividend and positive divisor it is floor division |
| Ast.Apply | 19.Interpreter_pattern_2.h:80-83 | applying an operator fails exactly on division by zero |
| Ast.Eval | 19.Interpreter_pattern_2.h:74-86 | `BinaryOperation::eval`, with `Integer::eval` (line 67) as the literal case: a tree without a division node always evaluates without error |
| Parser.FirstRParen | 19.Interpreter_pattern_2.h:107-109 | the first `)` at or after the position, or the end: nothing in between is a `)` |
| Parser.Place | 19.Interpreter_pattern_2.h:95-97 | an operand, whether a literal (lines 95-97) or a sub-parse (lines 112-113), goes to the left child if that is absent, otherwise to the right child; the operator and the other child are unchanged |
| Parser.OpOf | 19.Interpreter_pattern_2.h:100-103 | each operator token kind sets its own operator, and no two kinds set the same one |
| Parser.ParseLevel | 19.Interpreter_pattern_2.h:92-118 | the rest of the loop keeps the node a binary node with no right child unless it has a left child |
| Parser.Parsed | 19.Interpreter_pattern_2.h:89-121 | a successful parse is a binary node that never has a right child without a left child |
| Parser.Parse | 19.Interpreter_pattern_2.h:89-121 | the loop with its recursive calls returns exactly `Parsed(tokens)` |
| ParserProperties.LevelMatchesReference | 19.Interpreter_pattern_2.h:92-118 | from any point of the loop, the node ends up with the last operator still to come, and with the remaining operands placed left then right |
| ParserProperties.ParsedMatchesReference | 19.Interpreter_pattern_2.h:89-121 | a parse yields the last top-level operator (addition if there is none), the first top-level operand as left child, and the last one as right child if there are at least two; `)` tokens at the top level have no effect |
| ParserProperties.LevelOkIff | 19.Interpreter_pattern_2.h:92-118 | from any point of the loop, the parse succeeds if and only if every later `(` is closed by a `)` before the next `(` |
| ParserProperties.ParsedOkIff | 19.Interpreter_pattern_2.h:106-116 | a parse succeeds if and only if every `(` is followed by a `)` before any other `(` |
| Interpreter.Interpreted | 19.Interpreter_pattern_2.h:25-121 | lex, parse, evaluate: lexing fails exactly on an unrecognised character or a leading `*` or `/`; parsing fails exactly when some `(` is not closed before the next `(`; evaluation fails only on a tree that divides |
| Interpreter.ParseBinary | 19.Interpreter_pattern_2.h:95-103 | integer, operator, integer parses to that operator over the two literals |
| Interpreter.ParseParenthesisedBinary | 19.Interpreter_pattern_2.h:106-116 | `( a op b )` parses to a node whose only child is `a op b` |
| Interpreter.ParseDoublyParenthesised | 19.Interpreter_pattern_2.h:106-116 | `( ( a op b ) )` fails: the slice up to the first `)` holds an unclosed `(` |
| Interpreter.InterpretNumber | 19.Interpreter_pattern_2.h:25-121 | a digit string evaluates to its decimal value |
| Interpreter.InterpretSum | 19.Interpreter_pattern_2.h:25-121 | `a+b` evaluates to the sum and `a-b` to the difference |
| Interpreter.InterpretSumVia | 19.Interpreter_pattern_2.h:25-121 | `a+b` or `a-b` evaluates to whatever its parse evaluates to |
| Interpreter.InterpretProduct | 19.Interpreter_pattern_2.h:25-121 | `a*b` evaluates to the product; `a/b` is a division-by-zero error when `b` is 0, and otherwise the floor quotient |
| Interpreter.InterpretParenthesisedSum | 19.Interpreter_pattern_2.h:25-121 | `(a+b)` and `(a-b)` have the same value as `a+b` and `a-b` |
| Interpreter.InterpretParenthesisedProduct | 19.Interpreter_pattern_2.h:25-121 | `(a*b)` and `(a/b)` fail with an unmatched-parenthesis parse error |

## Left out

- `operator<<` on `Token` (line 22) is stream output and is not modelled.
- `shared_ptr` and `make_unique` ownership are not modelled. Children are `Option<Expr>` in an inductive datatype, so sharing and aliasing do not arise. `Parse` builds its node in three local variables: operator, left child and right child.
- Tokens.DigitsValue: an integer token's value is an unbounded natural. `stoi`'s out-of-range exception for values beyond 32 bits is not modelled. `Tokens.DigitsFitInt` shows that it cannot arise for tokens of at most nine digits.
- Ast.Eval: arithmetic is on unbounded integers. The overflow of C++ `int` in `+`, `-`, `*` and in `INT_MIN / -1` is not modelled.
- Parser.Parse: requires every integer token to carry a non-empty digit string (`WellFormed`). This is what the lexer produces (`Lexer.Lexed`). `stoi`'s behaviour on other text is not modelled.
- The operator of a node that sees no operator token is `Addition`, the value-initialised enumerator (line 90).
- The final `else return 0` of `BinaryOperation::eval` (lines 84-85) cannot be reached, because the four operators are exhaustive. It has no counterpart.
- The header has no `main`. `Interpreter.Interpreted` is the composition `parse(lex(s))->eval()` that a caller performs, without the printing.
- `singleton_pattern.h` and `prototype.cpp` are unrelated demonstration programs and are not part of this model. `prototype.h` is not part of this model either.
