# super-tiny-compiler-rs front end in Dafny

This project models the front end of `super-tiny-compiler-rs`, which is the whole
of `src/main.rs`. It has two stages:

- The **tokenizer** turns a string into `Paren`, `Name`, `Integer` and `Char`
  tokens. It drops blanks and stops at the first character it has no rule for.
- The **parser** (`walk` and `parser`) builds a `Program` of integer literals,
  string literals and call expressions `(name expr*)` from those tokens.

Each stage is an imperative method whose loops follow the Rust code:

- `Tokenizer.Tokenizer` holds the outer `while let` loop. `Tokenizer.ScanRun`
  holds the inner run loops.
- `Parser.Walk` holds the recursive call with its parameter `loop`.
  `Parser.Parser` holds the top-level loop.

Each method is proved equal to a recursive specification function:

- `Tokenize` / `ScanFrom` for the tokenizer
- `ParseExpr` / `ParseParams` for `walk`
- `Parse` / `ParseBody` for `parser`

What the program promises is proved as lemmas about those functions.

The Rust `Peekable` iterator is a cursor index. `walk` returns that index
together with its tree. Every `panic!` and every failing `unwrap` becomes an
error value:

- `LexError.UnexpectedCharacter` for the tokenizer
- `ParseError` for the parser, with one constructor per failure site

Tokens keep their text. Because the Rust tokens are slices of the input, the
lemmas also track each token's span as a `Lexeme`.

Files:

- `syntax.dfy`: the `Token` and `Ast` types, `Option` and `Result`, and the `i64` bounds.
- `tokenizer.dfy`: the character classes, runs, one step of the scan, the scan itself, and the `Tokenizer` method.
- `tokenizer_lemmas.dfy`: spans, no blank tokens, coverage of the input, token counts, and when tokenizing fails.
- `parser.dfy`: `i64::from_str_radix`, the recursive-descent specification, and the `Walk` and `Parser` methods.
- `parser_lemmas.dfy`: printing trees back to tokens, round trips, how literals and calls are read, and how calls fail.
- `scenarios.dfy`: concrete runs. These include the input hard-coded in `main`, `(add 2 (subtract 4 2))`.

### Strings

On a `"`, the tokenizer's inner loop advances while the *next* character is
not a quote, and it never consumes the closing quote. So:

- A `Char` token runs from its quote up to, but not including, the next quote or the end of the input.
- The closing quote then opens a new `Char` token.
- There is no unterminated-string error.
- A `StringLiteral` keeps the leading quote.

In particular, `(greet "hi")` does not parse to a call with the parameter
`StringLiteral("hi")`. `Scenarios.QuotedParameter` proves that it tokenizes to
`[Paren('('), Name("greet"), Char("\"hi"), Char("\")")]` and then fails as an
unterminated call, because the `)` sits inside the second string token.

## Model

| member | source | states |
|---|---|---|
| Tokenizer.Classify | src/main.rs:34-80 | One turn of the outer loop. The token at `i` starts at `i` and ends after it, within the input. It fails exactly when the character fits no rule, and the error carries that character. |
| Tokenizer.RunEnd | src/main.rs:41-75 | The end of the run that starts at `i`. Every character before it is in the class, and the character at it is not (or the input ends there). |
| Tokenizer.ScanRun | src/main.rs:41-75 | The inner `while let` loops stop at the run end: the loop's `counter` is `RunEnd`. |
| Tokenizer.Tokenizer | src/main.rs:28-88 | The loop, with its cursor and its token vector, returns exactly `Tokenize(data)`: the tokens of the scan with blanks dropped, or the first error. |
| TokenizerLemmas.RunEndUnique | src/main.rs:52-77 | A digit or letter run has exactly one end. Any position that closes the run is the one the loops stop at. |
| TokenizerLemmas.ClassifyFits | src/main.rs:33-80 | One turn of the outer loop, started where no run is cut, ends where no run is cut. A token it keeps is the input slice at its span: a paren is its character, a digit or letter run is maximal, and a string runs from its quote up to the next quote or the end of the input. |
| TokenizerLemmas.ScanFromFits | src/main.rs:33-85 | From any position that does not cut a run, every lexeme the scan keeps fits the input at its span, and the spans are in order. |
| TokenizerLemmas.TokenizeSpans | src/main.rs:33-85 | Every output token is the input slice at its span. A paren is that character. An integer or a name is a maximal digit or letter run. A string starts at a quote and ends before the next quote or at the end. Spans come in input order and do not overlap. |
| TokenizerLemmas.TokenizeNoWhitespace | src/main.rs:82-84 | No `Whitespace` token ever reaches the output. |
| TokenizerLemmas.ScanFromText | src/main.rs:33-85 | From any position, the kept token texts spell the rest of the input, with blanks removed before the first quote. |
| TokenizerLemmas.TokenizeCoversInput | src/main.rs:33-85 | Concatenating the token texts gives the input back, minus the blanks that lie before the first quote. Everything from the first quote on lies inside string tokens. |
| TokenizerLemmas.ScanFromCounts | src/main.rs:35-49 | From any position, the scan keeps one string token per quote after that position, and one paren token per paren before the next quote. |
| TokenizerLemmas.TokenizeCounts | src/main.rs:35-49 | There are exactly as many `Char` tokens as quotes in the input. There are as many `Paren('(')` and `Paren(')')` tokens as those characters before the first quote. |
| TokenizerLemmas.ScanFromFails | src/main.rs:78-79 | From any position, the scan fails if and only if a character with no rule lies before the next quote. The error names the first such character. |
| TokenizerLemmas.TokenizeFails | src/main.rs:78-79 | Tokenizing fails if and only if some character before the first quote fits no rule, and it reports the first such character. Quotes never cause a failure. |
| Parser.ParseI64 | src/main.rs:98 | `i64::from_str_radix(text, 10)`: an optional sign that is not alone, then decimal digits. Any value it returns lies within the `i64` range. |
| Parser.ParseExpr | src/main.rs:90-132 | `walk` consumes at least one token and never moves past the end, which is why the recursion terminates. |
| Parser.ParseParams | src/main.rs:114-123 | The parameter loop consumes at least one token, up to and including its `)`, and stays within the tokens. |
| Parser.Walk | src/main.rs:90-132 | The recursive method with its parameter loop returns exactly `ParseExpr(toks, pos)`: the tree and the new cursor, or the error. |
| Parser.Parser | src/main.rs:134-148 | The top-level loop returns exactly `Parse(toks)`. |
| ParserLemmas.ParseI64Unsigned | src/main.rs:98 | A non-empty run of decimal digits whose value is at most the `i64` maximum reads as that value. |
| ParserLemmas.ParseI64Negative | src/main.rs:98 | `-` followed by decimal digits whose value is at most the magnitude of the `i64` minimum reads as the negated value. |
| ParserLemmas.ParseI64Text | src/main.rs:98 | Every `i64`, written in decimal with a `-` when negative, is read back as itself. |
| ParserLemmas.ParseExprFlatten | src/main.rs:90-132 | If a printed expression stands at `pos`, `walk` returns that expression and the cursor just past it. |
| ParserLemmas.ParseParamsFlatten | src/main.rs:114-123 | If printed parameters and then `)` stand at `pos`, the loop collects those parameters, in order, after those already read. |
| ParserLemmas.ParseBodyFlatten | src/main.rs:139-147 | If printed expressions fill the tokens from `pos` on, the top-level loop appends them, in order. |
| ParserLemmas.ParseFlatten | src/main.rs:134-148 | Parsing the printed form of any list of expressions gives back `Program` of that list. |
| ParserLemmas.ParseExprCanon | src/main.rs:90-132 | When `walk` succeeds, its tree is an expression whose printed form is exactly the tokens it consumed, with integers written canonically. |
| ParserLemmas.ParseParamsCanon | src/main.rs:114-123 | When the parameter loop succeeds, the call keeps its name and the parameters already read. The new parameters, followed by `)`, print back as exactly the tokens it consumed. |
| ParserLemmas.ParseBodyCanon | src/main.rs:139-147 | When the top-level loop succeeds, the `Program` keeps the expressions already read. The new ones print back as exactly the remaining tokens. |
| ParserLemmas.ParseConsumesAll | src/main.rs:134-148 | A successful parse is a `Program` of expressions that consumed every token, in order. Printed back, it gives the tokens. |
| ParserLemmas.ParseIgnoresIntegerSpelling | src/main.rs:97-99 | Writing the integers of a parsable token sequence canonically does not change the tree. |
| ParserLemmas.LiteralTokens | src/main.rs:97-102 | A digit-run `Integer` token is read as its decimal value, and fails exactly when that value exceeds the `i64` maximum. A `Char` token is read with its text unchanged. |
| ParserLemmas.CallShape | src/main.rs:103-130 | Three failures. `(` as the last token fails with `MissingCallName`. `(` followed by a non-name fails with `ExpectedName` of that token. An expression starting with `)`, a name or a blank fails with `UnexpectedToken`. |
| ParserLemmas.ParseParamsRunsOut | src/main.rs:116-122 | If complete parameters run to the end of the tokens, the parameter loop fails as unterminated. |
| ParserLemmas.ParseUnterminated | src/main.rs:116-122 | `(name` followed by any complete parameters and no `)` fails as an unterminated call. |
| ParserLemmas.ParseExprHasToken | src/main.rs:94 | `walk` called with a token left never fails at its first `unwrap`. |
| ParserLemmas.ParseParamsHasToken | src/main.rs:116-122 | The parameter loop calls `walk` only after peeking a token, so it never reports a missing token. |
| ParserLemmas.ParseBodyHasToken | src/main.rs:139-145 | The top-level loop calls `walk` only while tokens remain. |
| ParserLemmas.ParseHasToken | src/main.rs:134-148 | Parsing never fails at the first `unwrap` of `walk`. |
| Scenarios.MainInputTokens | src/main.rs:2 | The input of `main` tokenizes to `( add 2 ( subtract 4 2 ) )`. |
| Scenarios.MainInputTree | src/main.rs:5 | Those tokens parse to `Program([add(2, subtract(4, 2))])`. |
| Scenarios.QuotedWord | src/main.rs:37-49 | `"hi"` gives `Char("\"hi")` and then `Char("\"")`: the closing quote opens a new string. |
| Scenarios.QuotedParameter | src/main.rs:41-49 | `(greet "hi")` tokenizes with its `)` inside a string token, and so parses as an unterminated call. |
| Scenarios.DigitsThenLetters | src/main.rs:52-77 | `2a` gives `Integer("2")` and then `Name("a")`. |
| Scenarios.EmptyInput | src/main.rs:28-148 | The empty input gives no tokens, and no tokens give `Program([])`. |
| Scenarios.SingleInteger | src/main.rs:28-148 | `42` tokenizes to the single token `Integer("42")`, which parses to `Program([IntegerLiteral(42)])`. |
| Scenarios.CommaStops | src/main.rs:78-79 | `(a, b)` fails at the comma. |
| Scenarios.MalformedCalls | src/main.rs:103-123 | The tokens of `(foo` fail as unterminated. The tokens of `(1 foo)` fail with `ExpectedName(Integer("1"))`. |

## Left out

- Character classes are ASCII only. `is_whitespace` is space and the code points 9 to 13, `is_alphabetic` is `a`-`z` and `A`-`Z`, and `is_digit(10)` is `0`-`9`. Non-ASCII letters and blanks count as characters with no rule.
- The code enumerates characters but slices bytes. Outside strings the model's ASCII classes already reject every non-ASCII character. Inside a string token the model slices by character, while the code slices bytes at character indices: a non-ASCII character in a string gives the code a shorter text, or a panic when an index falls inside a character. Neither is modelled.
- TokenizerLemmas.TokenizeSpans: holds for the code only when every string token is ASCII, because of the byte slicing above.
- TokenizerLemmas.TokenizeCoversInput: holds for the code only when every string token is ASCII, because of the byte slicing above.
- TokenizerLemmas.TokenizeFails: "quotes never cause a failure" holds for the code only when every string token is ASCII; otherwise the code can panic on a slice.
- The `println!` output of `main` is left out, because it is I/O only. The input string of `main` is kept as `Scenarios.MainInputTokens`.
- Lifetimes, borrowing and the `Peekable`/`enumerate` iterators are replaced by an index into the string or the token sequence.
- Panics are modelled as error values (`LexError`, `ParseError`), not as process aborts. Panic messages are not modelled.
- `LexError.UnexpectedCharacter` carries the character but no position, because the code reports no position.
- The call-stack depth of the recursion in `walk` is not modelled: deep nesting cannot overflow in the model.
- `ParseI64` accepts only ASCII digits, as `from_str_radix` does with radix 10. The tokenizer only ever hands it digit runs, so the sign branches are reached only by token sequences built outside the tokenizer.
- Scenarios.MalformedCalls: stated on token sequences, not on the input text.
