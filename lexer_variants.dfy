/** Where the two lexer classes part ways. A string whose text ends in an escaped backslash, such
  * as `"a\\"`, is closed by its final quote under the two-character lookback of
  * src/lexer/SimpleLexerImpl.ts; the one-character lookback of src/lexer/lexer.ts takes that quote
  * as escaped and runs off the end of the input. */
module LexerVariants {
  import opened Wrappers
  import opened Token
  import opened Lexing
  import opened LexProperties
  import SimpleLexerImpl
  import Lexer

  /** The five characters `"`, `a`, backslash, backslash, `"`. */
  const EscapedBackslash: string := "\"a\\\\\""

  /** The reference lexer under each quote rule on `"a\\"`. */
  lemma QuoteRulesDiffer()
    ensures Tokenize(EscapedBackslash, TwoCharLookback)
         == Ok([Token(String, EscapedBackslash, 1), Token(EOF, "EOF", 1)])
    ensures Tokenize(EscapedBackslash, OneCharLookback) == Err(UnterminatedString)
  {
    assert EscapedBackslash[0..5] == EscapedBackslash;
    TakeToken(EscapedBackslash, 0, 1, [], TwoCharLookback, Token(String, EscapedBackslash, 1), 5);
    assert [] + [Token(String, EscapedBackslash, 1)] == [Token(String, EscapedBackslash, 1)];
    assert ScanAll(EscapedBackslash, 0, 1, [], TwoCharLookback) == Ok(([Token(String, EscapedBackslash, 1)], 1));
    assert AppendEof([Token(String, EscapedBackslash, 1)], 1)
        == [Token(String, EscapedBackslash, 1), Token(EOF, "EOF", 1)];
    FailToken(EscapedBackslash, 0, 1, [], OneCharLookback, UnterminatedString);
  }

  /** `new Lexer(input).lex()` of each class on `"a\\"`: the lexer of SimpleLexerImpl.ts returns the
    * string token and EOF, the lexer of lexer.ts fails with an unterminated string. */
  method LexEscapedBackslash() returns (twoChar: Result<seq<Token>, LexError>, oneChar: Result<seq<Token>, LexError>)
    ensures twoChar == Ok([Token(String, EscapedBackslash, 1), Token(EOF, "EOF", 1)])
    ensures oneChar == Err(UnterminatedString)
  {
    QuoteRulesDiffer();
    var simpleLexer := new SimpleLexerImpl.Lexer(EscapedBackslash);
    twoChar := simpleLexer.Lex();
    var lexer := new Lexer.Lexer(EscapedBackslash);
    oneChar := lexer.Lex();
  }
}
