# json-parser in Dafny

A model of the lexer and parser of didinele/json-parser, a small JSON reader written in
TypeScript, together with proofs about that model.

- **Lexer.** Both lexer classes are modelled: `src/lexer/SimpleLexerImpl.ts` and
  `src/lexer/lexer.ts`. Each is a cursor over the input string. It returns a list of tokens,
  always ending with an EOF token, or it throws.
- **Parser.** `src/parser/SimpleParserImpl.ts` is a recursive-descent parser over that token
  list.
- **Token values.** `src/lexer/Token.ts` defines the twelve token kinds and `getTokenValue`.

## Layout

| file | module | what it holds |
|---|---|---|
| `wrappers.dfy` | `Wrappers` | `Option` and `Result`; a thrown error becomes `Err`. |
| `token.dfy` | `Token` | Token kinds, the token record, `getTokenValue` with JavaScript's `slice`. |
| `lexing.dfy` | `Lexing` | The reference lexer: `lexToken` and `lex` as functions of the input and a position. |
| `simple_lexer_impl.dfy` | `SimpleLexerImpl` | `class Lexer` of SimpleLexerImpl.ts, each method proved equal to the reference lexer. |
| `lexer.dfy` | `Lexer` | `class Lexer` of lexer.ts, each method proved equal to the reference lexer. |
| `lex_properties.dfy` | `LexProperties` | What a successful `lex` means, in both directions. |
| `lexer_variants.dfy` | `LexerVariants` | The input on which the two lexer classes disagree. |
| `lexer_tests.dfy` | `LexerTests` | The lexer test suite as lemmas. |
| `grammar.dfy` | `Grammar` | The reference parser: `parseObject`, `parseArray`, `parsePrimitive` and `parse` as functions. |
| `simple_parser_impl.dfy` | `SimpleParserImpl` | `class Parser`, each method proved equal to the reference parser. |
| `parse_properties.dfy` | `ParseProperties` | Soundness and completeness of the parser against a token grammar; error cases; repeated keys. |
| `pipeline.dfy` | `Pipeline` | Lexing and then parsing a text, in both directions. |
| `parser_tests.dfy` | `ParserTests` | The parser test suite as lemmas and methods. |

## How the model is built

**The two lexers.** They share everything except one rule: when a `"` inside a string counts as
escaped. In lexer.ts a quote is escaped when the character before it is a backslash. In
SimpleLexerImpl.ts it is escaped only when, in addition, the character before that backslash is
not itself a backslash.

- The reference lexer `Lexing.Tokenize` takes that rule as a `QuoteRule` parameter.
- Each class's `Lex` method is proved to return exactly `Tokenize` under its own rule.
- `LexerVariants` exhibits the text `"a\\"`, on which the two rules disagree.

**The parser.** `SimpleParserImpl.Parser` methods are proved to return exactly what the
functions of `Grammar` return, and to leave the cursor where those functions say.

**What is proved about the lexer.** `LexProperties` characterises a successful lex in both
directions:

- The input is the lexemes of the tokens, in order, with only whitespace between them.
- Every token but the last has the lexeme its kind calls for, so none of them is EOF.
- Each token's line is 1 plus the newlines in the whitespace before it.
- The last token is EOF and carries 1 plus all those newlines.
- No number token is followed directly by a digit or a dot, and a number that ends the input
  does not end in a dot.
- Conversely, any such text lexes to exactly those tokens, so the two directions are one
  if-and-only-if.

**What is proved about the parser.** `ParseProperties` shows that the parser accepts a token
sequence exactly when it begins with the tokens of a well-formed syntax tree and has only the
end after it. The value returned is that tree's meaning, in which a repeated key keeps the value
written last. Every `throw` of the parser is reached by the error lemmas.

**Lexing and parsing together.** `Pipeline` joins the two. The lexemes of a well-formed tree,
with whitespace between them and no number running into a digit or a dot, lex and then parse to
the tree's meaning. Conversely, any text that lexes and then parses is exactly such a text, and
the value is that tree's meaning. The object
tests of the parser suite are proved from their text this way.

## Model

| member | source | states |
|---|---|---|
| Token.RelativeIndex | src/lexer/Token.ts:30 | A JavaScript `slice` bound is clamped into `0..len`, and a negative bound counts from the end. |
| Token.JsSlice | src/lexer/Token.ts:30 | `slice(start, end)` is never longer than the string, and it is the ordinary slice for in-range bounds. |
| Token.GetTokenValue | src/lexer/Token.ts:27-53 | Succeeds exactly on String, Number, True, False and Null; any other kind throws, naming the kind. A String's value is its lexeme without the first and last character. A Number keeps its lexeme. The keywords give true, false and null. |
| Token.QuotedValue | src/lexer/Token.ts:29-31 | The value of the String token `"text"` is `text`. |
| Lexing.IsDigit | src/lexer/lexer.ts:87-93 | `isDigit` holds exactly when there is no character or the character is a decimal digit. |
| Lexing.ScanString | src/lexer/lexer.ts:113-119 | The string scan stops just past the first quote that closes the string. Every quote before it is escaped. If no closing quote comes before the end, the result is "Unterminated string". |
| Lexing.ScanNumber | src/lexer/SimpleLexerImpl.ts:142-152 | The number scan takes the longest run of digits and dots. It fails with "Unterminated decimal number" exactly when that run reaches the end of the input and the last character is a dot. |
| Lexing.ScanWord | src/lexer/SimpleLexerImpl.ts:96-108 | `consume` succeeds exactly when the expected characters follow the cursor, and it ends just after them. Otherwise it reports the first expected character that does not match, what stands there instead (nothing at the end of input), and the whole keyword being matched. |
| Lexing.StringTokenAt | src/lexer/lexer.ts:112-124 | A string starting at the cursor lexes exactly when its scan finds a closing quote. The String token spans from the opening quote up to and including that closing quote, on the current line. Otherwise the scan's error is reported. |
| Lexing.WordTokenAt | src/lexer/lexer.ts:70-82 | A keyword lexes exactly when the rest of the keyword follows its first character. The token spans the whole keyword, on the current line. Otherwise the error names the first character that does not match. |
| Lexing.NumberTokenAt | src/lexer/lexer.ts:164-179 | A number starting at the cursor lexes exactly when its scan succeeds. The Number token spans the digit and the whole run of digits and dots after it. Otherwise the scan's error is reported. |
| Lexing.TokenAt | src/lexer/lexer.ts:98-184 | `lexToken` always advances. A token's lexeme is the slice of the input it consumed, and it is on the current line. Whitespace gives no token, and a newline adds one to the line. At the end of input it fails with "advance past end". |
| Lexing.StringTokenSpan | src/lexer/lexer.ts:112-124 | A quote whose first closing quote is at `j` lexes as the String token running up to and including `j`. |
| Lexing.NumberTokenSpan | src/lexer/lexer.ts:164-179 | A digit followed by digits and dots, up to a character that is neither or to an end not preceded by a dot, lexes as one Number token spanning that run. |
| Lexing.NumberTokenEnd | src/lexer/lexer.ts:164-179 | A Number token ends where its run of digits and dots ends: no digit or dot follows it, and a number that ends the input does not end in a dot. |
| Lexing.TokenAtWellFormed | src/lexer/lexer.ts:98-184 | Every token `lexToken` returns has the lexeme its kind calls for: one bracket or punctuation character, the whole keyword, a quoted string closed only by its last quote, or a digit followed by digits and dots. |
| Lexing.KeywordWellFormed | src/lexer/lexer.ts:126-136 | A token lexed from `t`, `f` or `n` is the whole keyword `true`, `false` or `null`. |
| Lexing.PunctuationWellFormed | src/lexer/lexer.ts:104-152 | A token lexed from any other character is that one character: a comma or a colon (the arms at lines 104-110), or a brace or a square bracket (the arms at lines 138-152). |
| Lexing.ScanAll | src/lexer/lexer.ts:192-197 | The `lex` loop only appends: the tokens gathered so far stay a prefix of the result. |
| Lexing.ScanAllStep | src/lexer/lexer.ts:192-197 | One turn of the `lex` loop: an error from `lexToken` ends `lex` with that error. Otherwise the loop goes on from the new position with the token, if any, appended. |
| Lexing.AppendEof | src/lexer/lexer.ts:199-201 | After the loop the list ends with an EOF token. |
| Lexing.TokenizeFrom | src/lexer/lexer.ts:189-204 | `lex` from any cursor and line, when it succeeds, returns a non-empty list whose last token is EOF. |
| Lexing.Tokenize | src/lexer/lexer.ts:189-204 | A successful `lex` returns a non-empty list whose last token is EOF. |
| Lexer.Lexer.constructor | src/lexer/lexer.ts:7-17 | A new lexer starts at index 0, lexeme start 0, line 1. |
| Lexer.Lexer.IsAtEnd | src/lexer/lexer.ts:29-31 | The lexer is at the end exactly when there is no character under the cursor. |
| Lexer.Lexer.Peek | src/lexer/lexer.ts:56-58 | The character under the cursor; nothing past the end. |
| Lexer.Lexer.PeekBack | src/lexer/lexer.ts:63-65 | The character before the cursor; nothing at the start. |
| Lexer.Lexer.MakeToken | src/lexer/lexer.ts:36-39 | The token has the given kind and the current line. An EOF token has lexeme "EOF"; any other has the input from the lexeme start to the cursor. |
| Lexer.Lexer.Advance | src/lexer/lexer.ts:44-51 | At the end it throws and the index is unchanged. Otherwise it returns the character under the cursor and moves one step. |
| Lexer.Lexer.Consume | src/lexer/lexer.ts:70-82 | Matches the given characters one by one, as `ScanWord` says. It ends after them with the token, or reports the first character that does not match. |
| Lexer.Lexer.ScanStringLiteral | src/lexer/lexer.ts:112-124 | The inline string loop with one character of lookback computes `ScanString`: it stops after the closing quote with the String token, or reports an unterminated string. |
| Lexer.Lexer.ScanNumberLiteral | src/lexer/lexer.ts:164-179 | The inline number loop computes `ScanNumber`: it stops at the end of the run with the Number token, or reports an unterminated decimal number. |
| Lexer.Lexer.LexToken | src/lexer/lexer.ts:98-184 | Returns the token, the new index and the new line of `TokenAt` under the one-character rule, or its error. |
| Lexer.Lexer.Lex | src/lexer/lexer.ts:189-204 | Returns exactly what the reference lexer returns from the lexer's position and line, under the one-character rule. On success the cursor is at the end of the input and the line is the EOF token's line, so lexing the same lexer again gives only an EOF token. |
| SimpleLexerImpl.Lexer.constructor | src/lexer/SimpleLexerImpl.ts:8-18 | A new lexer starts at index 0, lexeme start 0, line 1. |
| SimpleLexerImpl.Lexer.IsAtEnd | src/lexer/SimpleLexerImpl.ts:44-46 | The lexer is at the end exactly when there is no character under the cursor. |
| SimpleLexerImpl.Lexer.Peek | src/lexer/SimpleLexerImpl.ts:82-84 | The character under the cursor; nothing past the end. |
| SimpleLexerImpl.Lexer.PeekBack | src/lexer/SimpleLexerImpl.ts:89-91 | The character `by` positions back; nothing before the start. |
| SimpleLexerImpl.Lexer.MakeToken | src/lexer/SimpleLexerImpl.ts:58-65 | The token has the given kind and the current line. An EOF token has lexeme "EOF"; any other has the current lexeme, the input from the lexeme start to the cursor. |
| SimpleLexerImpl.Lexer.Advance | src/lexer/SimpleLexerImpl.ts:70-77 | At the end it throws and the index is unchanged. Otherwise it returns the character under the cursor and moves one step. |
| SimpleLexerImpl.Lexer.Consume | src/lexer/SimpleLexerImpl.ts:96-108 | Matches the given characters as `ScanWord` says, or reports the first one that does not match. |
| SimpleLexerImpl.Lexer.LexString | src/lexer/SimpleLexerImpl.ts:124-136 | The string loop with two characters of lookback computes `ScanString` under the two-character rule. |
| SimpleLexerImpl.Lexer.LexNumber | src/lexer/SimpleLexerImpl.ts:141-155 | The number loop computes `ScanNumber`. |
| SimpleLexerImpl.Lexer.LexToken | src/lexer/SimpleLexerImpl.ts:160-225 | Returns the token, the new index and the new line of `TokenAt` under the two-character rule, or its error. |
| SimpleLexerImpl.Lexer.Lex | src/lexer/SimpleLexerImpl.ts:24-39 | Returns exactly what the reference lexer returns from the lexer's position and line, under the two-character rule. On success the cursor is at the end of the input and the line is the EOF token's line, so lexing the same lexer again gives only an EOF token. |
| LexProperties.SkipChar | src/lexer/lexer.ts:154-162 | A whitespace character gives no token, and a newline adds one to the line. |
| LexProperties.SkipBlank | src/lexer/lexer.ts:154-162 | A run of whitespace gives no token and adds one line per newline in it. |
| LexProperties.BlankHead | src/lexer/lexer.ts:154-162 | The first character of a run of whitespace is whitespace, the rest is a run of whitespace, and the newlines split between them. |
| LexProperties.TakeToken | src/lexer/lexer.ts:193-196 | A token found by `lexToken` is appended and the loop goes on after it. |
| LexProperties.FailToken | src/lexer/lexer.ts:193 | An error from `lexToken` is the error of `lex`. |
| LexProperties.TokenAtLexeme | src/lexer/lexer.ts:98-184 | Whenever a well-formed lexeme stands at a position (a number only when no digit or dot follows it), `lexToken` returns exactly that token there. |
| LexProperties.ScanAllLayout | src/lexer/lexer.ts:189-197 | From any position, the rest of the input is the new tokens' lexemes woven with whitespace gaps. The tokens are laid out line by line, no number among them runs into a digit or a dot, and the final line adds every gap's newlines. |
| LexProperties.ScanStepDelimited | src/lexer/lexer.ts:192-197 | One turn of the `lex` loop keeps the tokens delimited: whitespace only changes the gap in front, and a number token is followed by neither a digit nor a dot. |
| LexProperties.LayoutAll | src/lexer/lexer.ts:189-197 | In a laid-out text every gap is whitespace. Every token is well formed, is not EOF, and is on the starting line plus the newlines of the gaps before it. |
| LexProperties.TokenizeLayout | src/lexer/lexer.ts:189-204 | A successful `lex` returns the tokens of the input followed by one EOF. The input is their lexemes in order with only whitespace around them. No token but the last is EOF. Each token's line is 1 plus the newlines before it. No number token runs into a digit or a dot. The EOF has lexeme "EOF" and line 1 plus all the newlines. |
| LexProperties.ScanWoven | src/lexer/lexer.ts:192-197 | The `lex` loop over a laid-out, delimited text appends exactly its tokens and ends on the line after all the gaps' newlines. |
| LexProperties.WovenCons | src/lexer/lexer.ts:192-197 | One gap and one token at the front of a laid-out text, followed by the loop over the rest, is the loop over the whole. |
| LexProperties.TokenizeWoven | src/lexer/lexer.ts:189-204 | The converse of `TokenizeLayout`, making the two an if-and-only-if: a text built from whitespace gaps and well-formed lexemes on the right lines, with no number running into a digit or a dot, lexes to exactly those tokens and an EOF. |
| LexProperties.AloneLaidOut | src/lexer/lexer.ts:189-204 | A well-formed lexeme on its own, with empty gaps on both sides, is a laid-out, delimited text with no newlines. |
| LexProperties.RelexWellFormed | src/lexer/lexer.ts:189-204 | A well-formed lexeme lexed on its own gives back that one token on line 1 and an EOF, unless it is a number ending in a dot. |
| LexProperties.RelexToken | src/lexer/lexer.ts:189-204 | Re-lexing the lexeme of any token of a successful `lex` but the final EOF gives back that token (on line 1) and an EOF, unless it is a number ending in a dot. |
| LexerVariants.QuoteRulesDiffer | src/lexer/SimpleLexerImpl.ts:125 | On `"a\\"` the two-character rule gives one String token and EOF, while the one-character rule reports an unterminated string. |
| LexerVariants.LexEscapedBackslash | src/lexer/lexer.ts:113 | `new Lexer("a\\").lex()` of each class: SimpleLexerImpl.ts returns the string token and EOF; lexer.ts throws "Unterminated string". |
| LexerTests.LexComma | src/lexer/__tests__/lexer.test.ts:12-15 | `,` lexes to a Comma token and EOF. |
| LexerTests.LexBraces | src/lexer/__tests__/lexer.test.ts:17-25 | `{` and `}` each lex to their own token and EOF. |
| LexerTests.LexSquareBrackets | src/lexer/__tests__/lexer.test.ts:27-35 | `[` and `]` each lex to their own token and EOF. |
| LexerTests.LexUnterminatedStringError | src/lexer/__tests__/lexer.test.ts:40-43 | `"abc` is an unterminated string. |
| LexerTests.LexPlainString | src/lexer/__tests__/lexer.test.ts:45-51 | `"abc"` is one String token whose lexeme keeps the quotes. |
| LexerTests.LexEscapedQuote | src/lexer/__tests__/lexer.test.ts:53-59 | In `"ab\"c"` the escaped quote does not end the string, so the whole text is one String token. |
| LexerTests.LexTrailingDotAtEnd | src/lexer/__tests__/lexer.test.ts:63-66 | `1.` is an unterminated decimal number. |
| LexerTests.LexNumbers | src/lexer/__tests__/lexer.test.ts:68-82 | `1` and `1.23`, the two cases of the test, are each one Number token. So is `1.2.3`, a case added beyond the test file. |
| LexerTests.LexNumberAlone | src/lexer/__tests__/lexer.test.ts:68-82 | A digit followed by digits and dots, not ending in a dot, lexes on its own to one Number token and EOF. |
| LexerTests.LexTrailingDotBeforeMore | src/lexer/lexer.ts:166-176 | `1.]` lexes to the Number `1.`, a bracket and EOF: a final dot is rejected only at the end of input. |
| LexerTests.RelexTrailingDot | src/lexer/lexer.ts:166-176 | The Number token `1.` that `1.]` lexes to does not lex again on its own: alone it is an unterminated decimal number. |
| LexerTests.LexTrue | src/lexer/__tests__/lexer.test.ts:86-92 | `true` is one True token. |
| LexerTests.LexFalse | src/lexer/__tests__/lexer.test.ts:94-100 | `false` is one False token. |
| LexerTests.LexNull | src/lexer/__tests__/lexer.test.ts:102-108 | `null` is one Null token. |
| LexerTests.LexUnexpectedCharacterError | src/lexer/__tests__/lexer.test.ts:113-116 | `owo` fails on its first character. |
| LexerTests.LexKeywordMismatch | src/lexer/__tests__/lexer.test.ts:118-121 | `tr` fails to find `u` and finds nothing instead. |
| LexerTests.PrettyLines | src/lexer/__tests__/lexer.test.ts:132 | The two-space pretty-printed object contains eight newlines. |
| LexerTests.PrettyTokenize | src/lexer/__tests__/lexer.test.ts:132-133 | Lexing the pretty-printed object returns its 17 tokens and an EOF after all its newlines. |
| LexerTests.LexComplexStructure | src/lexer/__tests__/lexer.test.ts:124-156 | The pretty-printed object lexes to 18 tokens: the 17 expected kinds and lexemes, each on its line, then EOF on line 9. |
| Grammar.PrimitiveAt | src/parser/SimpleParserImpl.ts:78-86 | `parsePrimitive` succeeds exactly on a String, Number, True, False or Null token that is not at the end. It returns that token's value and moves one step; otherwise it reports an invalid value. |
| Grammar.AtEnd | src/parser/SimpleParserImpl.ts:91-93 | `isAtEnd` holds exactly when the cursor is past the last token or on an EOF token. |
| Grammar.CheckAt | src/parser/SimpleParserImpl.ts:118-124 | `check` holds exactly when a token of the given kind is under the cursor and the cursor is not at the end, so never for EOF. |
| Grammar.ValueAt | src/parser/SimpleParserImpl.ts:27-30 | `parseObject` always consumes at least one token when it succeeds. |
| Grammar.ArrayAt | src/parser/SimpleParserImpl.ts:57-60 | `parseArray` always consumes at least one token when it succeeds. |
| Grammar.MembersAt | src/parser/SimpleParserImpl.ts:35-54 | The object loop, when it succeeds, returns an object and consumes at least the closing brace. |
| Grammar.ElementsAt | src/parser/SimpleParserImpl.ts:65-75 | The array loop, when it succeeds, returns an array and consumes at least the closing bracket. |
| Grammar.MembersAtStep | src/parser/SimpleParserImpl.ts:35-51 | One pass of the object loop reads a comma (after the first pair), a string key, a colon and a value, then goes on with the pair assigned. |
| Grammar.MembersAtPair | src/parser/SimpleParserImpl.ts:35-51 | When the object loop succeeds and is not on a right brace, it read exactly such a pair there. |
| Grammar.MembersAtClose | src/parser/SimpleParserImpl.ts:53-54 | On a right brace the object is complete, and the brace is consumed. |
| Grammar.MembersAtEnd | src/parser/SimpleParserImpl.ts:53 | At the end of input the closing `advance` throws. |
| Grammar.MembersAtNoComma | src/parser/SimpleParserImpl.ts:36-38 | After a pair, anything but a comma or a right brace throws "Expected comma after key". |
| Grammar.MembersAtBadKey | src/parser/SimpleParserImpl.ts:41-43 | A key that is a value but not a string throws. |
| Grammar.MembersAtNoColon | src/parser/SimpleParserImpl.ts:45-47 | A string key without a colon after it throws. |
| Grammar.MembersAtTrailingComma | src/parser/SimpleParserImpl.ts:36-40 | A comma followed by a right brace makes `parsePrimitive` throw on the brace. |
| Grammar.ElementsAtStep | src/parser/SimpleParserImpl.ts:65-72 | One pass of the array loop reads a comma (after the first element) and a value, then goes on with it appended. |
| Grammar.ElementsAtElement | src/parser/SimpleParserImpl.ts:65-72 | When the array loop succeeds and is not on a right square bracket, it read exactly such an element there. |
| Grammar.ElementsAtClose | src/parser/SimpleParserImpl.ts:74-75 | On a right square bracket the array is complete, and the bracket is consumed. |
| Grammar.ElementsAtEnd | src/parser/SimpleParserImpl.ts:74 | At the end of input the closing `advance` throws. |
| Grammar.ElementsAtNoComma | src/parser/SimpleParserImpl.ts:66-68 | After an element, anything but a comma or a right square bracket throws "Expected comma after array element". |
| Grammar.ElementsAtTrailingComma | src/parser/SimpleParserImpl.ts:66-71 | A comma followed by a right square bracket makes the element's `parsePrimitive` throw. |
| Grammar.ValueAtObject | src/parser/SimpleParserImpl.ts:28-33 | On a left brace, `parseObject` runs its loop from the next token with no fields. |
| Grammar.ValueAtArray | src/parser/SimpleParserImpl.ts:58-63 | On a left square bracket, `parseArray` runs its loop from the next token with no elements. |
| Grammar.ParseFrom | src/parser/SimpleParserImpl.ts:16-25 | `parse` from a cursor succeeds exactly when one value is read there and the end follows it, and it returns that value. An error while reading the value is passed on; a value followed by more tokens gives "more than one top-level value". |
| Grammar.Parse | src/parser/SimpleParserImpl.ts:16-25 | `parse` from the first token succeeds exactly when one value is read and the end follows it. It returns that value. Any failure is the value's error or "more than one top-level value". |
| SimpleParserImpl.Parser.constructor | src/parser/SimpleParserImpl.ts:8-10 | A new parser starts at index 0 over the given tokens. |
| SimpleParserImpl.Parser.Length | src/parser/SimpleParserImpl.ts:12-14 | The number of input tokens. |
| SimpleParserImpl.Parser.IsAtEnd | src/parser/SimpleParserImpl.ts:91-93 | The parser is at the end exactly when the cursor is past the last token or on an EOF token. |
| SimpleParserImpl.Parser.Peek | src/parser/SimpleParserImpl.ts:114-116 | The kind of the token under the cursor; nothing past the end. |
| SimpleParserImpl.Parser.Previous | src/parser/SimpleParserImpl.ts:107-109 | The token just before the cursor. |
| SimpleParserImpl.Parser.Check | src/parser/SimpleParserImpl.ts:118-124 | True exactly when the token under the cursor has the given kind and the parser is not at the end; never for EOF. |
| SimpleParserImpl.Parser.Advance | src/parser/SimpleParserImpl.ts:98-105 | At the end (past the last token or on EOF) it throws and the index is unchanged. Otherwise it returns the token and moves one step. |
| SimpleParserImpl.Parser.Match | src/parser/SimpleParserImpl.ts:126-135 | Consumes one token exactly when it is not at the end and its kind is one of those given. |
| SimpleParserImpl.Parser.ParsePrimitive | src/parser/SimpleParserImpl.ts:78-86 | Returns the value and the new index of `PrimitiveAt`, or its error. |
| SimpleParserImpl.Parser.ParseObject | src/parser/SimpleParserImpl.ts:27-55 | Returns the value and the new index of `ValueAt`, or its error. |
| SimpleParserImpl.Parser.ParsePair | src/parser/SimpleParserImpl.ts:36-50 | One pass of the object loop: either the loop's error, or a key and value after which the loop goes on with the pair assigned. |
| SimpleParserImpl.Parser.ParseArray | src/parser/SimpleParserImpl.ts:57-76 | Returns the value and the new index of `ArrayAt`, or its error. |
| SimpleParserImpl.Parser.Parse | src/parser/SimpleParserImpl.ts:16-25 | Returns exactly `ParseFrom` at the starting index: one value, then the end, or else "more than one top-level value". When a value is read, the cursor is left just after it. |
| ParseProperties.StringKey | src/parser/SimpleParserImpl.ts:40-43 | A String token read as a key is a string: its text without the quotes. |
| ParseProperties.KeyAt | src/parser/SimpleParserImpl.ts:40 | `parsePrimitive` on a String token returns that key's text and moves one step. |
| ParseProperties.FirstToken | src/parser/SimpleParserImpl.ts:65 | A well-formed value never starts with EOF or a right square bracket, so the array loop cannot stop in front of one. |
| ParseProperties.ValueAtComplete | src/parser/SimpleParserImpl.ts:27-86 | Completeness: the tokens of any well-formed tree at the cursor are read as that tree's meaning, and the cursor ends just after them. |
| ParseProperties.ObjectAtComplete | src/parser/SimpleParserImpl.ts:27-55 | A well-formed object is read as the object of its fields. |
| ParseProperties.ArrayAtComplete | src/parser/SimpleParserImpl.ts:57-76 | A well-formed array is read as the array of its values. |
| ParseProperties.PairStep | src/parser/SimpleParserImpl.ts:36-50 | One well-formed pair takes the object loop past its tokens, with the pair assigned. |
| ParseProperties.MembersAtAfter | src/parser/SimpleParserImpl.ts:35-51 | Well-formed pairs take the object loop past their tokens, with all their fields assigned in order. |
| ParseProperties.MembersAtComplete | src/parser/SimpleParserImpl.ts:35-54 | Well-formed pairs followed by a right brace are read as the object of their fields. |
| ParseProperties.ElementStep | src/parser/SimpleParserImpl.ts:66-71 | One well-formed element takes the array loop past its tokens, with the element appended. |
| ParseProperties.ElementsAtAfter | src/parser/SimpleParserImpl.ts:65-72 | Well-formed elements take the array loop past their tokens, with their values appended in order. |
| ParseProperties.ElementsAtComplete | src/parser/SimpleParserImpl.ts:65-75 | Well-formed elements followed by a right square bracket are read as the array of their values. |
| ParseProperties.MembersUnclosed | src/parser/SimpleParserImpl.ts:53 | Well-formed pairs followed by the end of input throw at the missing brace. |
| ParseProperties.MembersMissingComma | src/parser/SimpleParserImpl.ts:36-38 | After well-formed pairs, anything but a comma, a right brace or the end throws the missing-comma error. |
| ParseProperties.MembersTrailingComma | src/parser/SimpleParserImpl.ts:40 | A comma after the last pair, right before the brace, throws an invalid value. |
| ParseProperties.MembersBadKey | src/parser/SimpleParserImpl.ts:41-43 | After well-formed pairs, a key that is a value but not a string throws. |
| ParseProperties.MembersMissingColon | src/parser/SimpleParserImpl.ts:45-47 | After well-formed pairs, a string key without a colon throws. |
| ParseProperties.ElementsUnclosed | src/parser/SimpleParserImpl.ts:74 | Well-formed elements followed by the end of input throw at the missing bracket. |
| ParseProperties.ElementsMissingComma | src/parser/SimpleParserImpl.ts:66-68 | After well-formed elements, anything but a comma, a right square bracket or the end throws the missing-comma error. |
| ParseProperties.ElementsTrailingComma | src/parser/SimpleParserImpl.ts:70-71 | A comma after the last element, right before the bracket, throws an invalid value. |
| ParseProperties.ValueAtTree | src/parser/SimpleParserImpl.ts:27-86 | Whatever the parser reads at the cursor is the rendering of a well-formed tree. |
| ParseProperties.MembersAtTree | src/parser/SimpleParserImpl.ts:35-54 | Whatever the object loop reads is a run of well-formed pairs closed by a right brace. |
| ParseProperties.ElementsAtTree | src/parser/SimpleParserImpl.ts:65-75 | Whatever the array loop reads is a run of well-formed elements closed by a right square bracket. |
| ParseProperties.ValueAtSound | src/parser/SimpleParserImpl.ts:27-86 | Soundness: a successful read at the cursor returns the meaning of the well-formed tree whose tokens lie there, and ends just after them. |
| ParseProperties.ParseComplete | src/parser/SimpleParserImpl.ts:16-25 | A well-formed tree followed by the end (EOF or no token) parses to its meaning. |
| ParseProperties.ParseTrailingData | src/parser/SimpleParserImpl.ts:18-22 | A well-formed tree followed by anything but the end throws "more than one top-level value". |
| ParseProperties.ParseSound | src/parser/SimpleParserImpl.ts:16-25 | A successful `parse` read a well-formed tree followed by the end, and returned its meaning. |
| ParseProperties.LastWriteWins | src/parser/SimpleParserImpl.ts:49 | A repeated key keeps the value of the pair written last. A key no pair writes keeps what it had. |
| ParseProperties.ParseRendered | src/parser/SimpleParserImpl.ts:16-25 | The tokens of a well-formed tree followed by EOF parse to the tree's meaning. |
| Pipeline.AtEndOfLexed | src/parser/SimpleParserImpl.ts:91-93 | On the tokens of a successful `lex`, the parser is at the end exactly on the final EOF token and past it. |
| Pipeline.LastToken | src/parser/SimpleParserImpl.ts:27-76 | A well-formed value has at least one token, and its last token is not EOF. |
| Pipeline.LexThenParse | src/parser/__tests__/parser.test.ts:6-10 | The lexemes of a well-formed tree laid out with whitespace lex to the tree's tokens and an EOF on the last line, and those parse to the tree's meaning. |
| Pipeline.ParsedText | src/parser/__tests__/parser.test.ts:6-10 | The exact converse of `LexThenParse`: a text that lexes and then parses is the lexemes of a well-formed tree, laid out with whitespace gaps and with no number running into a digit or a dot. The tokens before EOF are exactly that tree's, and the value is its meaning. |
| Pipeline.ParsedAllButEof | src/parser/SimpleParserImpl.ts:16-25 | A tree that `parse` reads from the start of a lexed text, up to the end, covers every token but the final EOF. |
| ParserTests.StringToken | src/lexer/Token.ts:29-31 | A String token whose lexeme is `text` in quotes stands for `text`. |
| ParserTests.LexAndParse | src/parser/__tests__/parser.test.ts:6-10 | Lexing with lexer.ts and then parsing returns exactly `Tokenize` and then `Parse`; there is no parse when lexing fails. |
| ParserTests.TopLevelString | src/parser/__tests__/parser.test.ts:5-13 | `"abc"` parses to the string abc. |
| ParserTests.TopLevelNumber | src/parser/__tests__/parser.test.ts:15-23 | `1.23` parses to the number with lexeme 1.23. |
| ParserTests.TopLevelTrue | src/parser/__tests__/parser.test.ts:25-33 | `true` parses to true. |
| ParserTests.TopLevelNull | src/parser/__tests__/parser.test.ts:35-43 | `null` parses to null. |
| ParserTests.SimpleObjectRenders | src/parser/__tests__/parser.test.ts:48 | The tokens of `{ "a": 1, "b": false, "c": "foo", "d": null }` are exactly the rendering of one tree. |
| ParserTests.SimpleObjectMeaning | src/parser/__tests__/parser.test.ts:54 | That tree stands for the object the test expects. |
| ParserTests.ParseSimpleObject | src/parser/__tests__/parser.test.ts:47-55 | Those tokens followed by EOF parse to `{a: 1, b: false, c: "foo", d: null}`. |
| ParserTests.SimpleObjectLaidOut | src/parser/__tests__/parser.test.ts:48 | The test's tokens are laid out on line 1, each well formed, with only spaces in the gaps between them. |
| ParserTests.SimpleObjectLexesAndParses | src/parser/__tests__/parser.test.ts:47-55 | The test's text lexes, and its tokens parse to `{a: 1, b: false, c: "foo", d: null}`. |
| ParserTests.SimpleObjectFromText | src/parser/__tests__/parser.test.ts:47-55 | Running the text through the lexer class and then the parser class returns `{a: 1, b: false, c: "foo", d: null}`. |
| ParserTests.ParseEmptyInnerObject | src/parser/__tests__/parser.test.ts:57-65 | The tokens of `{ "a": {} }` render a well-formed tree that stands for an object holding an empty object, and followed by EOF they parse to it. |
| ParserTests.EmptyInnerWoven | src/parser/__tests__/parser.test.ts:58 | The text `{ "a": {} }` is those tokens' lexemes with its spaces between them. |
| ParserTests.EmptyInnerLexesAndParses | src/parser/__tests__/parser.test.ts:57-65 | The text `{ "a": {} }` lexes, and its tokens parse to `{a: {}}`. |
| ParserTests.EmptyInnerObjectFromText | src/parser/__tests__/parser.test.ts:57-65 | Running `{ "a": {} }` through the lexer class and then the parser class returns `{a: {}}`. |
| ParserTests.ParseNestedObject | src/parser/__tests__/parser.test.ts:67-75 | The tokens of `{ "a": { "b": 1 } }` followed by EOF parse to the nested object. |
| ParserTests.NestedRenders | src/parser/__tests__/parser.test.ts:68 | The tokens of `{ "a": { "b": 1 } }` are exactly the rendering of one well-formed tree. |
| ParserTests.NestedMeaning | src/parser/__tests__/parser.test.ts:74 | That tree stands for `{a: {b: 1}}`. |
| ParserTests.NestedWoven | src/parser/__tests__/parser.test.ts:68 | The text `{ "a": { "b": 1 } }` is those tokens' lexemes with its spaces between them. |
| ParserTests.NestedLexesAndParses | src/parser/__tests__/parser.test.ts:67-75 | The text `{ "a": { "b": 1 } }` lexes, and its tokens parse to `{a: {b: 1}}`. |
| ParserTests.NestedObjectFromText | src/parser/__tests__/parser.test.ts:67-75 | Running `{ "a": { "b": 1 } }` through the lexer class and then the parser class returns `{a: {b: 1}}`. |
| ParserTests.ParseRepeatedKey | src/parser/SimpleParserImpl.ts:49 | `{ "a": 1, "a": 2 }` parses to `{a: 2}`. |
| ParserTests.MixedArrayRenders | src/parser/SimpleParserImpl.ts:57-76 | The tokens of `[1, [], 2]` render a well-formed tree. |
| ParserTests.MixedArrayMeaning | src/parser/SimpleParserImpl.ts:57-76 | That tree stands for the array 1, empty array, 2. |
| ParserTests.ParseMixedArray | src/parser/SimpleParserImpl.ts:57-76 | `[1, [], 2]` parses to that array, in order. |
| ParserTests.ParseUnclosedObject | src/parser/SimpleParserImpl.ts:53 | `{ "a": 1` fails at the missing brace. |
| ParserTests.ParseTrailingCommaInObject | src/parser/SimpleParserImpl.ts:40 | `{ "a": 1, }` fails with an invalid value. |
| ParserTests.ParseMissingCommaInObject | src/parser/SimpleParserImpl.ts:36-38 | `{ "a": 1 "b": 2 }` fails with the object's missing-comma error. |
| ParserTests.ParseNumberKey | src/parser/SimpleParserImpl.ts:41-43 | `{ 1: 2 }` fails because the key is not a string. |
| ParserTests.ParseMissingColon | src/parser/SimpleParserImpl.ts:45-47 | `{ "a" 1 }` fails at the missing colon. |
| ParserTests.ParseTrailingCommaInArray | src/parser/SimpleParserImpl.ts:70-71 | `[1, ]` fails with an invalid value. |
| ParserTests.ParseMissingCommaInArray | src/parser/SimpleParserImpl.ts:66-68 | `[1 2]` fails with the array's missing-comma error. |
| ParserTests.ParseUnclosedArray | src/parser/SimpleParserImpl.ts:74 | `[1` fails at the missing bracket. |
| ParserTests.ParseTrailingValue | src/parser/SimpleParserImpl.ts:18-22 | `1 2` fails because there is more than one top-level value. |

## Left out

- **Numbers.** `getTokenValue` converts a Number lexeme with `Number(...)`, a float
  conversion. The model keeps the lexeme (`SNumber`, `JNumber`). Floating point is not modelled,
  so a number's value is its text.
- **Exceptions.** Each `throw` is an `Err` of a small error datatype. The message text is
  reduced to the error's kind plus what it names: the character, or the keyword being lexed.
- **JavaScript objects.** Object values are a `map`, so the order of keys is not modelled. The
  special behaviour of a `__proto__` key in a JavaScript object literal is not modelled either.
- **Inline loops in lexer.ts.** `lexToken` in lexer.ts has its string loop and its number loop
  written inline. The model lifts each loop, with the same body, into the helper methods
  `ScanStringLiteral` and `ScanNumberLiteral`, called from the same switch arms.
- **The object loop body.** The body of the `parseObject` loop is lifted into
  `SimpleParserImpl.Parser.ParsePair` in the same way.
- **Line counting.** Lines are counted exactly as the code counts them: only a newline read as
  whitespace between tokens moves the line. A newline inside a string literal does not, even
  though a token's line is usually described as one plus all the newlines before it.
- **Repository parts outside the core.** The benchmark wrappers, the scripts, the `ILexer` and
  `IParser` interfaces, `src/util/benchmark.ts`, and the duplicate token definitions in
  `src/lexer/token.ts` are not modelled.
- **src/parser/parser.ts.** The parser test file imports a `Parser` from this file, which is not
  part of this model. The parser tests are therefore stated against `SimpleParserImpl.Parser`.
  - `SimpleParserImpl.ts` imports `getTokenValue` from `../lexer/lexer`, which does not define
    it. The model uses the definition in `Token.ts`.
- **SimpleParserImpl.Parser.Previous:** it requires a token before the cursor. The only caller,
  `parsePrimitive`, calls it right after a successful `match`. An out-of-range read, which
  JavaScript would return as `undefined`, is not modelled.
- **Text of the simple-object test.** The three object tests are stated from their text, through
  the lexer and then the parser. `{ "a": {} }` and `{ "a": { "b": 1 } }` are written as string
  literals. The simple-object text, 45 characters long, is written instead as its whitespace gaps
  and its lexemes (`ParserTests.SimpleObjectText`), because proving one literal of that length
  equal to a woven text is too costly for the verifier. The tests beyond the suite (a repeated
  key, the mixed array, the error cases) are stated over token sequences.
- **Input of the complex-structure test.** That test's text is produced by
  `JSON.stringify(data, null, 2)`, which is not modelled. The pretty-printed text is instead
  written out as its whitespace gaps and its lexemes (`LexerTests.PrettyText`).
- LexProperties.RelexToken: it excludes a Number token whose lexeme ends in a dot. `lexToken`
  accepts such a number when another character follows it, but not at the end of input, so the
  lexeme `1.` of `1.]` does not lex on its own (`LexerTests.RelexTrailingDot`). The lemma also
  leaves out the final EOF token, whose label `EOF` is not a lexeme of the input. For every token
  but the final EOF, re-lexing its lexeme gives back a token of the same kind, as one would expect
  of a lexer; for these numbers the source does not.
- **Strings.** Strings are sequences of characters. JavaScript's UTF-16 code units and
  surrogate pairs are not modelled. `isDigit` (a `parseInt` test) is modelled as an ASCII digit
  test, or true when there is no character.
