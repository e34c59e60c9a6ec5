/** The lexer test suite (src/lexer/__tests__/lexer.test.ts) as lemmas about the reference lexer
  * under the one-character quote rule of src/lexer/lexer.ts, the variant those tests import. Each
  * proof walks the scan token by token. */
module LexerTests {
  import opened Wrappers
  import opened Token
  import opened Lexing
  import opened LexProperties

  /** A comma alone is a Comma token followed by EOF. */
  lemma LexComma()
    ensures Tokenize(",", OneCharLookback) == Ok([Token(Comma, ",", 1), Token(EOF, "EOF", 1)])
  {
    assert ","[0..1] == ",";
    TakeToken(",", 0, 1, [], OneCharLookback, Token(Comma, ",", 1), 1);
    assert [] + [Token(Comma, ",", 1)] == [Token(Comma, ",", 1)];
    assert ScanAll(",", 0, 1, [], OneCharLookback) == Ok(([Token(Comma, ",", 1)], 1));
    assert AppendEof([Token(Comma, ",", 1)], 1) == [Token(Comma, ",", 1), Token(EOF, "EOF", 1)];
  }

  /** A brace alone is its own token followed by EOF. */
  lemma LexBraces()
    ensures Tokenize("{", OneCharLookback) == Ok([Token(LeftBrace, "{", 1), Token(EOF, "EOF", 1)])
    ensures Tokenize("}", OneCharLookback) == Ok([Token(RightBrace, "}", 1), Token(EOF, "EOF", 1)])
  {
    assert "{"[0..1] == "{";
    TakeToken("{", 0, 1, [], OneCharLookback, Token(LeftBrace, "{", 1), 1);
    assert [] + [Token(LeftBrace, "{", 1)] == [Token(LeftBrace, "{", 1)];
    assert ScanAll("{", 0, 1, [], OneCharLookback) == Ok(([Token(LeftBrace, "{", 1)], 1));
    assert AppendEof([Token(LeftBrace, "{", 1)], 1) == [Token(LeftBrace, "{", 1), Token(EOF, "EOF", 1)];
    assert "}"[0..1] == "}";
    TakeToken("}", 0, 1, [], OneCharLookback, Token(RightBrace, "}", 1), 1);
    assert [] + [Token(RightBrace, "}", 1)] == [Token(RightBrace, "}", 1)];
    assert ScanAll("}", 0, 1, [], OneCharLookback) == Ok(([Token(RightBrace, "}", 1)], 1));
    assert AppendEof([Token(RightBrace, "}", 1)], 1) == [Token(RightBrace, "}", 1), Token(EOF, "EOF", 1)];
  }

  /** A square bracket alone is its own token followed by EOF. */
  lemma LexSquareBrackets()
    ensures Tokenize("[", OneCharLookback) == Ok([Token(LeftSquareBracket, "[", 1), Token(EOF, "EOF", 1)])
    ensures Tokenize("]", OneCharLookback) == Ok([Token(RightSquareBracket, "]", 1), Token(EOF, "EOF", 1)])
  {
    assert "["[0..1] == "[";
    TakeToken("[", 0, 1, [], OneCharLookback, Token(LeftSquareBracket, "[", 1), 1);
    assert [] + [Token(LeftSquareBracket, "[", 1)] == [Token(LeftSquareBracket, "[", 1)];
    assert ScanAll("[", 0, 1, [], OneCharLookback) == Ok(([Token(LeftSquareBracket, "[", 1)], 1));
    assert AppendEof([Token(LeftSquareBracket, "[", 1)], 1) == [Token(LeftSquareBracket, "[", 1), Token(EOF, "EOF", 1)];
    assert "]"[0..1] == "]";
    TakeToken("]", 0, 1, [], OneCharLookback, Token(RightSquareBracket, "]", 1), 1);
    assert [] + [Token(RightSquareBracket, "]", 1)] == [Token(RightSquareBracket, "]", 1)];
    assert ScanAll("]", 0, 1, [], OneCharLookback) == Ok(([Token(RightSquareBracket, "]", 1)], 1));
    assert AppendEof([Token(RightSquareBracket, "]", 1)], 1) == [Token(RightSquareBracket, "]", 1), Token(EOF, "EOF", 1)];
  }

  /** A quoted string is one String token holding the quotes. */
  lemma LexPlainString()
    ensures Tokenize("\"abc\"", OneCharLookback) == Ok([Token(String, "\"abc\"", 1), Token(EOF, "EOF", 1)])
  {
    assert "\"abc\""[0..5] == "\"abc\"";
    TakeToken("\"abc\"", 0, 1, [], OneCharLookback, Token(String, "\"abc\"", 1), 5);
    assert [] + [Token(String, "\"abc\"", 1)] == [Token(String, "\"abc\"", 1)];
    assert ScanAll("\"abc\"", 0, 1, [], OneCharLookback) == Ok(([Token(String, "\"abc\"", 1)], 1));
    assert AppendEof([Token(String, "\"abc\"", 1)], 1) == [Token(String, "\"abc\"", 1), Token(EOF, "EOF", 1)];
  }

  /** A quote right after a backslash does not end the string. */
  lemma LexEscapedQuote()
    ensures Tokenize("\"ab\\\"c\"", OneCharLookback) == Ok([Token(String, "\"ab\\\"c\"", 1), Token(EOF, "EOF", 1)])
  {
    assert "\"ab\\\"c\""[0..7] == "\"ab\\\"c\"";
    TakeToken("\"ab\\\"c\"", 0, 1, [], OneCharLookback, Token(String, "\"ab\\\"c\"", 1), 7);
    assert [] + [Token(String, "\"ab\\\"c\"", 1)] == [Token(String, "\"ab\\\"c\"", 1)];
    assert ScanAll("\"ab\\\"c\"", 0, 1, [], OneCharLookback) == Ok(([Token(String, "\"ab\\\"c\"", 1)], 1));
    assert AppendEof([Token(String, "\"ab\\\"c\"", 1)], 1) == [Token(String, "\"ab\\\"c\"", 1), Token(EOF, "EOF", 1)];
  }

  /** A string the input ends inside of is an error. */
  lemma LexUnterminatedStringError()
    ensures Tokenize("\"abc", OneCharLookback) == Err(UnterminatedString)
  {
    FailToken("\"abc", 0, 1, [], OneCharLookback, UnterminatedString);
    assert ScanAll("\"abc", 0, 1, [], OneCharLookback) == Err(UnterminatedString);
  }

  /** A number is the longest run of digits and dots after a digit. */
  lemma LexNumbers()
    ensures Tokenize("1", OneCharLookback) == Ok([Token(Number, "1", 1), Token(EOF, "EOF", 1)])
    ensures Tokenize("1.23", OneCharLookback) == Ok([Token(Number, "1.23", 1), Token(EOF, "EOF", 1)])
    ensures Tokenize("1.2.3", OneCharLookback) == Ok([Token(Number, "1.2.3", 1), Token(EOF, "EOF", 1)])
  {
    LexNumberAlone("1");
    LexNumberAlone("1.23");
    LexNumberAlone("1.2.3");
  }

  /** A lexeme that is a digit followed by digits and dots, not ending in a dot, lexes alone to
    * one number token. */
  lemma LexNumberAlone(lexeme: string)
    requires |lexeme| > 0 && '0' <= lexeme[0] <= '9' && lexeme[|lexeme| - 1] != '.'
    requires forall k :: 0 <= k < |lexeme| ==> IsNumberChar(lexeme[k])
    ensures Tokenize(lexeme, OneCharLookback) == Ok([Token(Number, lexeme, 1), Token(EOF, "EOF", 1)])
  {
    RelexWellFormed(Token(Number, lexeme, 1), OneCharLookback);
  }

  /** A number that the input ends right after a dot is an error. */
  lemma LexTrailingDotAtEnd()
    ensures Tokenize("1.", OneCharLookback) == Err(UnterminatedNumber)
  {
    FailToken("1.", 0, 1, [], OneCharLookback, UnterminatedNumber);
    assert ScanAll("1.", 0, 1, [], OneCharLookback) == Err(UnterminatedNumber);
  }

  /** A number ending in a dot is accepted when another character follows. */
  lemma LexTrailingDotBeforeMore()
    ensures Tokenize("1.]", OneCharLookback) == Ok([Token(Number, "1.", 1), Token(RightSquareBracket, "]", 1), Token(EOF, "EOF", 1)])
  {
    assert "1.]"[0..2] == "1.";
    TakeToken("1.]", 0, 1, [], OneCharLookback, Token(Number, "1.", 1), 2);
    assert [] + [Token(Number, "1.", 1)] == [Token(Number, "1.", 1)];
    assert "1.]"[2..3] == "]";
    TakeToken("1.]", 2, 1, [Token(Number, "1.", 1)], OneCharLookback, Token(RightSquareBracket, "]", 1), 3);
    assert [Token(Number, "1.", 1)] + [Token(RightSquareBracket, "]", 1)] == [Token(Number, "1.", 1), Token(RightSquareBracket, "]", 1)];
    assert ScanAll("1.]", 0, 1, [], OneCharLookback) == Ok(([Token(Number, "1.", 1), Token(RightSquareBracket, "]", 1)], 1));
    assert AppendEof([Token(Number, "1.", 1), Token(RightSquareBracket, "]", 1)], 1) == [Token(Number, "1.", 1), Token(RightSquareBracket, "]", 1), Token(EOF, "EOF", 1)];
  }

  /** The number token "1." that the lexer accepts before a bracket does not lex back on its own:
    * written out alone, the input ends right after its dot. */
  lemma RelexTrailingDot()
    ensures Tokenize("1.]", OneCharLookback).Ok?
    ensures Tokenize("1.]", OneCharLookback).value[0] == Token(Number, "1.", 1)
    ensures Tokenize(Tokenize("1.]", OneCharLookback).value[0].lexeme, OneCharLookback) == Err(UnterminatedNumber)
  {
    LexTrailingDotBeforeMore();
    LexTrailingDotAtEnd();
  }

  /** The keyword true is one token with the whole word as lexeme. */
  lemma LexTrue()
    ensures Tokenize("true", OneCharLookback) == Ok([Token(True, "true", 1), Token(EOF, "EOF", 1)])
  {
    assert "true"[0..4] == "true";
    TakeToken("true", 0, 1, [], OneCharLookback, Token(True, "true", 1), 4);
    assert [] + [Token(True, "true", 1)] == [Token(True, "true", 1)];
    assert ScanAll("true", 0, 1, [], OneCharLookback) == Ok(([Token(True, "true", 1)], 1));
    assert AppendEof([Token(True, "true", 1)], 1) == [Token(True, "true", 1), Token(EOF, "EOF", 1)];
  }

  /** The keyword false is one token with the whole word as lexeme. */
  lemma LexFalse()
    ensures Tokenize("false", OneCharLookback) == Ok([Token(False, "false", 1), Token(EOF, "EOF", 1)])
  {
    assert "false"[0..5] == "false";
    TakeToken("false", 0, 1, [], OneCharLookback, Token(False, "false", 1), 5);
    assert [] + [Token(False, "false", 1)] == [Token(False, "false", 1)];
    assert ScanAll("false", 0, 1, [], OneCharLookback) == Ok(([Token(False, "false", 1)], 1));
    assert AppendEof([Token(False, "false", 1)], 1) == [Token(False, "false", 1), Token(EOF, "EOF", 1)];
  }

  /** The keyword null is one token with the whole word as lexeme. */
  lemma LexNull()
    ensures Tokenize("null", OneCharLookback) == Ok([Token(Null, "null", 1), Token(EOF, "EOF", 1)])
  {
    assert "null"[0..4] == "null";
    TakeToken("null", 0, 1, [], OneCharLookback, Token(Null, "null", 1), 4);
    assert [] + [Token(Null, "null", 1)] == [Token(Null, "null", 1)];
    assert ScanAll("null", 0, 1, [], OneCharLookback) == Ok(([Token(Null, "null", 1)], 1));
    assert AppendEof([Token(Null, "null", 1)], 1) == [Token(Null, "null", 1), Token(EOF, "EOF", 1)];
  }

  /** A keyword cut short reports the first missing character. */
  lemma LexKeywordMismatch()
    ensures Tokenize("tr", OneCharLookback) == Err(LiteralMismatch('u', None, "rue"))
  {
    FailToken("tr", 0, 1, [], OneCharLookback, LiteralMismatch('u', None, "rue"));
    assert ScanAll("tr", 0, 1, [], OneCharLookback) == Err(LiteralMismatch('u', None, "rue"));
  }

  /** A character that starts no token is an error. */
  lemma LexUnexpectedCharacterError()
    ensures Tokenize("owo", OneCharLookback) == Err(UnexpectedCharacter('o'))
  {
    FailToken("owo", 0, 1, [], OneCharLookback, UnexpectedCharacter('o'));
    assert ScanAll("owo", 0, 1, [], OneCharLookback) == Err(UnexpectedCharacter('o'));
  }

  /** The tokens of `JSON.stringify({a: 1.23, b: {c: [2, 3]}}, null, 2)`, with the line each one
    * is on. */
  const PrettyTokens: seq<Token> := [
    Token(LeftBrace, "{", 1), Token(String, "\"a\"", 2), Token(Colon, ":", 2), Token(Number, "1.23", 2),
    Token(Comma, ",", 2), Token(String, "\"b\"", 3), Token(Colon, ":", 3), Token(LeftBrace, "{", 3),
    Token(String, "\"c\"", 4), Token(Colon, ":", 4), Token(LeftSquareBracket, "[", 4), Token(Number, "2", 5),
    Token(Comma, ",", 5), Token(Number, "3", 6), Token(RightSquareBracket, "]", 7), Token(RightBrace, "}", 8),
    Token(RightBrace, "}", 9)]

  /** The whitespace the two-space pretty printer puts before each of those tokens and after the
    * last: a newline and the nesting depth's indent before each member, element and closing
    * bracket, one space after each colon. */
  const PrettyGaps: seq<string> := [
    "", "\n  ", "", " ", "", "\n  ", "", " ", "\n    ", "", " ", "\n      ", "", "\n      ", "\n    ", "\n  ",
    "\n", ""]

  /** The pretty-printed text: the gaps and the lexemes in turn. */
  const PrettyText: string := Weave(PrettyGaps, PrettyTokens)

  /** The pretty-printed text is laid out: blank gaps, well-formed tokens, and each token on line
    * 1 plus the newlines before it. */
  lemma PrettyLayout(rule: QuoteRule)
    ensures |PrettyGaps| == |PrettyTokens| + 1 && Layout(PrettyTokens, PrettyGaps, 1, rule)
  {
    PrettyBlank();
    PrettyWellFormed(rule);
    PrettyLineSteps();
    LayoutByIndex(PrettyTokens, PrettyGaps, 1, rule);
  }

  /** Every gap is whitespace. */
  lemma PrettyBlank()
    ensures forall k :: 0 <= k < |PrettyGaps| ==> IsBlank(PrettyGaps[k])
  {
  }

  /** Every token has the lexeme its kind calls for. */
  lemma PrettyWellFormed(rule: QuoteRule)
    ensures forall k :: 0 <= k < |PrettyTokens| ==> WellFormedToken(PrettyTokens[k], rule)
  {
  }

  /** Each token's line is the previous token's plus the newlines between them. */
  lemma PrettyLineSteps()
    ensures PrettyTokens[0].line == 1 + NewlineCount(PrettyGaps[0])
    ensures forall k :: 0 <= k < |PrettyTokens| - 1 ==> PrettyTokens[k + 1].line == PrettyTokens[k].line + NewlineCount(PrettyGaps[k + 1])
  {
  }

  /** Neither number runs into what follows it. */
  lemma PrettyDelimited()
    ensures |PrettyGaps| == |PrettyTokens| + 1 && Delimited(PrettyTokens, PrettyGaps)
  {
    DelimitedByIndex(PrettyTokens, PrettyGaps);
  }

  /** The text holds eight newlines, so the EOF after it is on line 9. */
  lemma PrettyLines()
    ensures 1 + Lines(PrettyGaps) == 9
  {
    PrettyLayout(OneCharLookback);
    LinesAfterLast(PrettyTokens, PrettyGaps, 1, OneCharLookback);
  }

  /** Lexing the text gives back its tokens and an EOF after all its newlines. */
  lemma PrettyTokenize(rule: QuoteRule)
    ensures Tokenize(PrettyText, rule) == Ok(PrettyTokens + [Token(EOF, "EOF", 1 + Lines(PrettyGaps))])
  {
    PrettyLayout(rule);
    PrettyDelimited();
    TokenizeWoven(PrettyText, PrettyGaps, PrettyTokens, rule);
  }

  /** The complex-structure test: 18 tokens, the 17 of the pretty-printed object followed by EOF,
    * under either quote rule. */
  lemma LexComplexStructure(rule: QuoteRule)
    ensures var r := Tokenize(PrettyText, rule);
            && r.Ok? && |r.value| == 18
            && r.value == PrettyTokens + [Token(EOF, "EOF", 9)]
  {
    PrettyTokenize(rule);
    PrettyLines();
  }
}
