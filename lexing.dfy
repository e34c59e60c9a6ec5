/** The reference lexer: the behaviour of both lexer classes (src/lexer/SimpleLexerImpl.ts and
  * src/lexer/lexer.ts) written as functions of the input and a cursor position. The two classes
  * differ only in when a quote closes a string, which `QuoteRule` selects. */
module Lexing {
  import opened Wrappers
  import opened Token

  /** What the lexers throw. */
  datatype LexError =
    | UnexpectedCharacter(character: char)
    | UnterminatedString
    | UnterminatedNumber
    | LiteralMismatch(expected: char, found: Option<char>, characters: string)
    | AdvancePastEnd

  /** How far back the string scan looks to decide that a quote is escaped: one character
    * (lexer.ts) or two (SimpleLexerImpl.ts). */
  datatype QuoteRule = OneCharLookback | TwoCharLookback

  /** `input[k]` in JavaScript: `undefined` (here `None`) outside the string. */
  function CharAt(s: string, k: int): Option<char> {
    if 0 <= k < |s| then Some(s[k]) else None
  }

  /** `isDigit`: true for an ASCII digit and, as in the source, for a missing character. */
  predicate IsDigit(c: Option<char>)
    ensures IsDigit(c) <==> c.None? || c.value in "0123456789"
  {
    c.None? || '0' <= c.value <= '9'
  }

  /** Characters that the lexers skip between tokens. */
  predicate IsWhitespace(c: char) {
    c == ' ' || c == '\r' || c == '\t' || c == '\n'
  }

  /** Characters that a number lexeme may continue with. */
  predicate IsNumberChar(c: char) {
    '0' <= c <= '9' || c == '.'
  }

  /** The quote at `k` counts as escaped: a backslash precedes it and, under the two-character
    * rule, that backslash is not itself preceded by a backslash. */
  predicate Escaped(s: string, k: int, rule: QuoteRule) {
    CharAt(s, k - 1) == Some('\\') && (rule.OneCharLookback? || CharAt(s, k - 2) != Some('\\'))
  }

  /** Position `k` holds a quote that ends the string being scanned. */
  predicate ClosesString(s: string, k: int, rule: QuoteRule) {
    CharAt(s, k) == Some('"') && !Escaped(s, k, rule)
  }

  /** The string scan from `i` (just after the opening quote): the position just past the first
    * closing quote, or UnterminatedString when the input ends first. */
  function ScanString(s: string, i: nat, rule: QuoteRule): (r: Result<nat, LexError>)
    decreases |s| - i
    ensures r.Ok? ==> i < r.value <= |s| && ClosesString(s, r.value - 1, rule)
    ensures r.Ok? ==> forall k :: i <= k < r.value - 1 ==> !ClosesString(s, k, rule)
    ensures r.Err? ==> r.error == UnterminatedString
    ensures r.Err? ==> forall k :: i <= k < |s| ==> !ClosesString(s, k, rule)
  {
    if ClosesString(s, i, rule) then Ok(i + 1)
    else if i + 1 > |s| then Err(UnterminatedString)
    else ScanString(s, i + 1, rule)
  }

  /** The number scan from `i` (just after the first digit): the end of the longest run of digits
    * and dots, or UnterminatedNumber when that run reaches the end of input right after a dot. */
  function ScanNumber(s: string, i: nat): (r: Result<nat, LexError>)
    requires i <= |s|
    decreases |s| - i
    ensures r.Ok? ==> i <= r.value <= |s|
    ensures r.Ok? ==> forall k :: i <= k < r.value ==> IsNumberChar(s[k])
    ensures r.Ok? && r.value < |s| ==> !IsNumberChar(s[r.value])
    ensures r.Err? ==> r.error == UnterminatedNumber
    ensures r.Err? <==>
              (forall k :: i <= k < |s| ==> IsNumberChar(s[k])) && CharAt(s, |s| - 1) == Some('.')
  {
    if !(IsDigit(CharAt(s, i)) || CharAt(s, i) == Some('.')) then Ok(i)
    else if i + 1 > |s| then
      if CharAt(s, i - 1) == Some('.') then Err(UnterminatedNumber) else Ok(i)
    else ScanNumber(s, i + 1)
  }

  /** `e` reports the first of `characters[k..]` that does not follow at `i`: the characters
    * before it, `characters[k..m]`, do follow, and `e` names `characters[m]` as expected and what
    * stands in its place (nothing past the end of input) as found. */
  predicate FirstMismatch(s: string, i: nat, characters: string, k: nat, e: LexError) {
    exists m :: k <= m < |characters| && i + m - k <= |s|
      && s[i..i + m - k] == characters[k..m]
      && e == LiteralMismatch(characters[m], CharAt(s, i + m - k), characters)
      && CharAt(s, i + m - k) != Some(characters[m])
  }

  /** A mismatch after one more matching character is still the first mismatch. */
  lemma FirstMismatchStep(s: string, i: nat, characters: string, k: nat, e: LexError)
    requires i < |s| && k < |characters| && s[i] == characters[k]
    requires FirstMismatch(s, i + 1, characters, k + 1, e)
    ensures FirstMismatch(s, i, characters, k, e)
  {
    var m :| k + 1 <= m < |characters| && i + 1 + m - (k + 1) <= |s|
      && s[i + 1..i + 1 + m - (k + 1)] == characters[k + 1..m]
      && e == LiteralMismatch(characters[m], CharAt(s, i + 1 + m - (k + 1)), characters)
      && CharAt(s, i + 1 + m - (k + 1)) != Some(characters[m]);
    assert s[i..i + m - k] == [s[i]] + s[i + 1..i + m - k];
    assert characters[k..m] == [characters[k]] + characters[k + 1..m];
  }

  /** `consume`: the characters `characters[k..]` must follow at `i`, one by one; the first one
    * that does not match is reported with what was found instead. */
  function ScanWord(s: string, i: nat, characters: string, k: nat): (r: Result<nat, LexError>)
    requires i <= |s| && k <= |characters|
    decreases |characters| - k
    ensures r.Ok? <==> i + |characters| - k <= |s| && s[i..i + |characters| - k] == characters[k..]
    ensures r.Ok? ==> r.value == i + |characters| - k
    ensures r.Err? ==> FirstMismatch(s, i, characters, k, r.error)
  {
    if k == |characters| then Ok(i)
    else if CharAt(s, i) == Some(characters[k]) then
      assert i < |s|;
      var r := ScanWord(s, i + 1, characters, k + 1);
      assert characters[k..] == [characters[k]] + characters[k + 1..];
      assert i + |characters| - k <= |s| ==>
               s[i..i + |characters| - k] == [s[i]] + s[i + 1..i + |characters| - k];
      if r.Err? then FirstMismatchStep(s, i, characters, k, r.error); r else r
    else
      assert s[i..i] == characters[k..k];
      Err(LiteralMismatch(characters[k], CharAt(s, i), characters))
  }

  /** The lexeme and kind a well-formed token has, under the given quote rule. */
  predicate WellFormedToken(t: Token, rule: QuoteRule) {
    match t.kind
    case Comma => t.lexeme == ","
    case Colon => t.lexeme == ":"
    case LeftBrace => t.lexeme == "{"
    case RightBrace => t.lexeme == "}"
    case LeftSquareBracket => t.lexeme == "["
    case RightSquareBracket => t.lexeme == "]"
    case True => t.lexeme == "true"
    case False => t.lexeme == "false"
    case Null => t.lexeme == "null"
    case String =>
      && |t.lexeme| >= 2 && t.lexeme[0] == '"'
      && ClosesString(t.lexeme, |t.lexeme| - 1, rule)
      && forall k :: 1 <= k < |t.lexeme| - 1 ==> !ClosesString(t.lexeme, k, rule)
    case Number =>
      && |t.lexeme| >= 1 && '0' <= t.lexeme[0] <= '9'
      && forall k :: 0 <= k < |t.lexeme| ==> IsNumberChar(t.lexeme[k])
    case EOF => false
  }

  /** What one call of `lexToken` does: the token it returns (none for whitespace), the position
    * after it and the new line count. */
  datatype Step = Step(token: Option<Token>, next: nat, line: nat)

  /** A token of the given kind spanning `s[start..next]`. */
  function Emit(s: string, start: nat, next: nat, kind: TokenType, line: nat): (r: Result<Step, LexError>)
    requires start < next <= |s|
    ensures r.Ok? && r.value.token.Some? && r.value.next == next && r.value.line == line
    ensures r.value.token.value == Token(kind, s[start..next], line)
  {
    Ok(Step(Some(Token(kind, s[start..next], line)), next, line))
  }

  /** The lexeme of a string token, `s[start..next]`, seen on its own closes exactly where the scan
    * over the whole input closed it. */
  lemma ClosesStringInLexeme(s: string, start: nat, next: nat, rule: QuoteRule)
    requires start < next <= |s| && s[start] == '"'
    ensures forall k :: 1 <= k < next - start ==>
              (ClosesString(s[start..next], k, rule) <==> ClosesString(s, start + k, rule))
  {
    var lexeme := s[start..next];
    forall k | 1 <= k < next - start
      ensures ClosesString(lexeme, k, rule) <==> ClosesString(s, start + k, rule)
    {
      assert CharAt(lexeme, k) == CharAt(s, start + k);
      assert CharAt(lexeme, k - 1) == CharAt(s, start + k - 1);
      if k >= 2 {
        assert CharAt(lexeme, k - 2) == CharAt(s, start + k - 2);
      } else {
        assert CharAt(s, start + k - 1) == Some('"');
      }
    }
  }

  /** A string token whose opening quote is at `i`. */
  function StringTokenAt(s: string, i: nat, line: nat, rule: QuoteRule): (r: Result<Step, LexError>)
    requires i < |s|
    ensures r.Ok? <==> ScanString(s, i + 1, rule).Ok?
    ensures r.Ok? ==> && r.value.next == ScanString(s, i + 1, rule).value && r.value.line == line
                      && r.value.token == Some(Token(String, s[i..r.value.next], line))
    ensures r.Err? ==> r.error == ScanString(s, i + 1, rule).error
  {
    var k :- ScanString(s, i + 1, rule);
    Emit(s, i, k, String, line)
  }

  /** A keyword token whose first character is at `i`; `rest` must follow it. */
  function WordTokenAt(s: string, i: nat, line: nat, kind: TokenType, rest: string): (r: Result<Step, LexError>)
    requires i < |s|
    ensures r.Ok? <==> i + 1 + |rest| <= |s| && s[i + 1..i + 1 + |rest|] == rest
    ensures r.Ok? ==> && r.value.next == i + 1 + |rest| && r.value.line == line
                      && r.value.token == Some(Token(kind, s[i..i + 1 + |rest|], line))
    ensures r.Err? ==> FirstMismatch(s, i + 1, rest, 0, r.error)
  {
    var k :- ScanWord(s, i + 1, rest, 0);
    Emit(s, i, k, kind, line)
  }

  /** A number token whose first digit is at `i`. */
  function NumberTokenAt(s: string, i: nat, line: nat): (r: Result<Step, LexError>)
    requires i < |s|
    ensures r.Ok? <==> ScanNumber(s, i + 1).Ok?
    ensures r.Ok? ==> && r.value.next == ScanNumber(s, i + 1).value && r.value.line == line
                      && r.value.token == Some(Token(Number, s[i..r.value.next], line))
    ensures r.Err? ==> r.error == ScanNumber(s, i + 1).error
  {
    var k :- ScanNumber(s, i + 1);
    Emit(s, i, k, Number, line)
  }

  /** `lexToken` at position `i`: the dispatch on the first character. */
  function TokenAt(s: string, i: nat, line: nat, rule: QuoteRule): (r: Result<Step, LexError>)
    ensures r.Ok? ==> i < r.value.next <= |s|
    ensures r.Ok? && r.value.token.Some? ==>
              && r.value.token.value.lexeme == s[i..r.value.next]
              && r.value.token.value.line == line
              && r.value.line == line
    ensures r.Ok? && r.value.token.None? ==>
              && r.value.next == i + 1 && IsWhitespace(s[i])
              && r.value.line == line + (if s[i] == '\n' then 1 else 0)
    ensures i < |s| && IsWhitespace(s[i]) ==> r.Ok? && r.value.token.None?
    ensures i + 1 > |s| ==> r == Err(AdvancePastEnd)
  {
    if i + 1 > |s| then Err(AdvancePastEnd)
    else
      var j := i + 1;
      match s[i]
      case ',' => Emit(s, i, j, Comma, line)
      case ':' => Emit(s, i, j, Colon, line)
      case '"' => StringTokenAt(s, i, line, rule)
      case 't' => WordTokenAt(s, i, line, True, "rue")
      case 'f' => WordTokenAt(s, i, line, False, "alse")
      case 'n' => WordTokenAt(s, i, line, Null, "ull")
      case '{' => Emit(s, i, j, LeftBrace, line)
      case '}' => Emit(s, i, j, RightBrace, line)
      case '[' => Emit(s, i, j, LeftSquareBracket, line)
      case ']' => Emit(s, i, j, RightSquareBracket, line)
      case ' ' => Ok(Step(None, j, line))
      case '\r' => Ok(Step(None, j, line))
      case '\t' => Ok(Step(None, j, line))
      case '\n' => Ok(Step(None, j, line + 1))
      case c => if IsDigit(Some(c)) then NumberTokenAt(s, i, line) else Err(UnexpectedCharacter(c))
  }

  /** A quote at `i` whose first closing quote is at `j` makes the string token `s[i..j + 1]`. */
  lemma StringTokenSpan(s: string, i: nat, j: nat, line: nat, rule: QuoteRule)
    requires i < j < |s| && s[i] == '"' && ClosesString(s, j, rule)
    requires forall k :: i < k < j ==> !ClosesString(s, k, rule)
    ensures TokenAt(s, i, line, rule) == Ok(Step(Some(Token(String, s[i..j + 1], line)), j + 1, line))
  {
    assert ScanString(s, i + 1, rule) == Ok(j + 1);
  }

  /** A digit at `i` followed by digits and dots up to `j`, where either a character that is
    * neither stands or the input ends after something other than a dot, makes the number token
    * `s[i..j]`: the longest such run. */
  lemma NumberTokenSpan(s: string, i: nat, j: nat, line: nat, rule: QuoteRule)
    requires i < j <= |s| && '0' <= s[i] <= '9'
    requires forall k :: i < k < j ==> IsNumberChar(s[k])
    requires j < |s| ==> !IsNumberChar(s[j])
    requires j == |s| ==> s[j - 1] != '.'
    ensures TokenAt(s, i, line, rule) == Ok(Step(Some(Token(Number, s[i..j], line)), j, line))
  {
    assert ScanNumber(s, i + 1) == Ok(j);
  }

  /** A string token is a quoted lexeme that only its last quote closes. */
  lemma StringTokenWellFormed(s: string, i: nat, line: nat, rule: QuoteRule)
    requires i < |s| && s[i] == '"' && StringTokenAt(s, i, line, rule).Ok?
    ensures WellFormedToken(StringTokenAt(s, i, line, rule).value.token.value, rule)
  {
    var next := ScanString(s, i + 1, rule).value;
    ClosesStringInLexeme(s, i, next, rule);
  }

  /** A keyword token's lexeme is its first character followed by `rest`. */
  lemma WordTokenLexeme(s: string, i: nat, line: nat, kind: TokenType, rest: string)
    requires i < |s| && WordTokenAt(s, i, line, kind, rest).Ok?
    ensures WordTokenAt(s, i, line, kind, rest).value.token.value.lexeme == [s[i]] + rest
  {
    var next := ScanWord(s, i + 1, rest, 0).value;
    assert s[i..next] == [s[i]] + s[i + 1..next];
  }

  /** A number token is a digit followed by digits and dots. */
  lemma NumberTokenWellFormed(s: string, i: nat, line: nat)
    requires i < |s| && '0' <= s[i] <= '9' && NumberTokenAt(s, i, line).Ok?
    ensures WellFormedToken(NumberTokenAt(s, i, line).value.token.value, TwoCharLookback)
  {
    var next := ScanNumber(s, i + 1).value;
    var lexeme := s[i..next];
    forall k | 0 <= k < |lexeme| ensures IsNumberChar(lexeme[k]) {
      assert lexeme[k] == s[i + k];
    }
  }

  /** A number token ends where its run of digits and dots ends: no digit or dot follows it, and
    * when it ends the input its last character is not a dot. */
  lemma NumberTokenEnd(s: string, i: nat, line: nat, rule: QuoteRule)
    requires TokenAt(s, i, line, rule).Ok? && TokenAt(s, i, line, rule).value.token.Some?
    requires TokenAt(s, i, line, rule).value.token.value.kind == Number
    ensures var next := TokenAt(s, i, line, rule).value.next;
            && (next < |s| ==> !IsNumberChar(s[next]))
            && (next == |s| ==> s[next - 1] != '.')
  {
    var step := TokenAt(s, i, line, rule).value;
    TokenAtWellFormed(s, i, line, rule);
    assert s[i] == step.token.value.lexeme[0];
    assert TokenAt(s, i, line, rule) == NumberTokenAt(s, i, line);
    if step.next == |s| {
      assert CharAt(s, |s| - 1) == Some(s[step.next - 1]);
    }
  }

  /** Every token `lexToken` returns has the lexeme its kind calls for: one character for the
    * structural kinds, the whole keyword, a quoted string closed by its last character only, or
    * a digit followed by digits and dots. */
  lemma TokenAtWellFormed(s: string, i: nat, line: nat, rule: QuoteRule)
    requires TokenAt(s, i, line, rule).Ok? && TokenAt(s, i, line, rule).value.token.Some?
    ensures WellFormedToken(TokenAt(s, i, line, rule).value.token.value, rule)
  {
    if s[i] == '"' {
      StringTokenWellFormed(s, i, line, rule);
    } else if s[i] in "tfn" {
      KeywordWellFormed(s, i, line, rule);
    } else if '0' <= s[i] <= '9' {
      NumberTokenWellFormed(s, i, line);
    } else {
      PunctuationWellFormed(s, i, line, rule);
    }
  }

  /** The keyword tokens are the whole keyword. */
  lemma KeywordWellFormed(s: string, i: nat, line: nat, rule: QuoteRule)
    requires TokenAt(s, i, line, rule).Ok? && s[i] in "tfn"
    ensures TokenAt(s, i, line, rule).value.token.Some?
    ensures WellFormedToken(TokenAt(s, i, line, rule).value.token.value, rule)
  {
    match s[i]
    case 't' => WordTokenLexeme(s, i, line, True, "rue");
    case 'f' => WordTokenLexeme(s, i, line, False, "alse");
    case 'n' => WordTokenLexeme(s, i, line, Null, "ull");
  }

  /** The one-character tokens have the lexeme their kind calls for. */
  lemma PunctuationWellFormed(s: string, i: nat, line: nat, rule: QuoteRule)
    requires TokenAt(s, i, line, rule).Ok? && TokenAt(s, i, line, rule).value.token.Some?
    requires s[i] !in "\"tfn" && !('0' <= s[i] <= '9')
    ensures WellFormedToken(TokenAt(s, i, line, rule).value.token.value, rule)
  {
    assert TokenAt(s, i, line, rule).value.token.value.lexeme == [s[i]];
  }

  /** The tokens of an optional token. */
  function OptionalToken(t: Option<Token>): (r: seq<Token>)
    ensures t.Some? ==> r == [t.value]
    ensures t.None? ==> r == []
  {
    if t.Some? then [t.value] else []
  }

  /** The loop of `lex`: tokens are appended to `tokens` until the input is used up; the result
    * is the token list and the final line count. */
  function ScanAll(s: string, i: nat, line: nat, tokens: seq<Token>, rule: QuoteRule)
    : (r: Result<(seq<Token>, nat), LexError>)
    decreases |s| - i
    ensures r.Ok? ==> |tokens| <= |r.value.0| && r.value.0[..|tokens|] == tokens
  {
    if i + 1 > |s| then Ok((tokens, line))
    else
      var step :- TokenAt(s, i, line, rule);
      var r := ScanAll(s, step.next, step.line, tokens + OptionalToken(step.token), rule);
      assert r.Ok? ==> r.value.0[..|tokens|] == (r.value.0[..|tokens + OptionalToken(step.token)|])[..|tokens|];
      r
  }

  /** One turn of the scan loop: a failing step fails the scan, a successful one hands it on. */
  lemma ScanAllStep(s: string, i: nat, line: nat, tokens: seq<Token>, rule: QuoteRule)
    requires i < |s|
    ensures TokenAt(s, i, line, rule).Err? ==>
              ScanAll(s, i, line, tokens, rule) == Err(TokenAt(s, i, line, rule).error)
    ensures TokenAt(s, i, line, rule).Ok? ==>
              var step := TokenAt(s, i, line, rule).value;
              ScanAll(s, i, line, tokens, rule)
              == ScanAll(s, step.next, step.line, tokens + OptionalToken(step.token), rule)
  {
  }

  /** At the end of the input the scan returns what it has gathered. */
  lemma ScanAllEnd(s: string, i: nat, line: nat, tokens: seq<Token>, rule: QuoteRule)
    requires i + 1 > |s|
    ensures ScanAll(s, i, line, tokens, rule) == Ok((tokens, line))
  {
  }

  /** The end of `lex`: an EOF token carrying the final line is appended unless the list already
    * ends with one. */
  function AppendEof(tokens: seq<Token>, line: nat): (r: seq<Token>)
    ensures |r| > 0 && r[|r| - 1].kind == EOF
  {
    if |tokens| == 0 || tokens[|tokens| - 1].kind != EOF then tokens + [Token(EOF, "EOF", line)]
    else tokens
  }

  /** `lex` on a lexer whose cursor is at `i` and whose line count is `line`. */
  function TokenizeFrom(s: string, i: nat, line: nat, rule: QuoteRule): (r: Result<seq<Token>, LexError>)
    ensures r.Ok? ==> |r.value| > 0 && r.value[|r.value| - 1].kind == EOF
  {
    var scanned :- ScanAll(s, i, line, [], rule);
    Ok(AppendEof(scanned.0, scanned.1))
  }

  /** `new Lexer(s).lex()`. */
  function Tokenize(s: string, rule: QuoteRule): (r: Result<seq<Token>, LexError>)
    ensures r.Ok? ==> |r.value| > 0 && r.value[|r.value| - 1].kind == EOF
  {
    TokenizeFrom(s, 0, 1, rule)
  }
}
