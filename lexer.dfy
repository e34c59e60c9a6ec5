/** The lexer of src/lexer/lexer.ts, the variant the tests use: the same cursor as
  * SimpleLexerImpl. Its string scan treats a quote as escaped whenever a backslash precedes it
  * (one character of lookback). The source writes the string and number scans inline in
  * `lexToken`; here they are the methods ScanStringLiteral and ScanNumberLiteral, called from the
  * same switch arms, so that each loop is proved on its own. */
module Lexer {
  import opened Wrappers
  import opened Token
  import opened Lexing

  class Lexer {
    /** The text being lexed; never changed. */
    const input: string
    /** Current index in the input. */
    var index: nat
    /** Index where the current lexeme starts. */
    var currentLexemeStart: nat
    /** Current line number, counted from 1. */
    var line: nat

    ghost predicate Valid()
      reads this
    {
      currentLexemeStart <= index <= |input| && line >= 1
    }

    constructor (input: string)
      ensures Valid()
      ensures this.input == input && index == 0 && currentLexemeStart == 0 && line == 1
    {
      this.input := input;
      index := 0;
      currentLexemeStart := 0;
      line := 1;
    }

    /** Whether the cursor has passed the last character. */
    predicate IsAtEnd()
      reads this
      ensures IsAtEnd() <==> Peek().None?
    {
      index + 1 > |input|
    }

    /** The character under the cursor, `None` past the end. */
    function Peek(): (c: Option<char>)
      reads this
      ensures c.Some? <==> index < |input|
      ensures c.Some? ==> c.value == input[index]
    {
      CharAt(input, index)
    }

    /** The character just before the cursor, `None` at the start. */
    function PeekBack(): (c: Option<char>)
      reads this
      ensures c.Some? <==> 0 < index <= |input|
      ensures c.Some? ==> c.value == input[index - 1]
    {
      CharAt(input, index - 1)
    }

    /** The slice from the lexeme start to the cursor. */
    function CurrentLexeme(): string
      reads this
      requires Valid()
    {
      input[currentLexemeStart..index]
    }

    /** A token of the given kind with the current lexeme (the label "EOF" for EOF) and line. */
    function MakeToken(kind: TokenType): (t: Token)
      reads this
      requires Valid()
      ensures t.kind == kind && t.line == line
      ensures kind == EOF ==> t.lexeme == "EOF"
      ensures kind != EOF ==> t.lexeme == input[currentLexemeStart..index]
                              && |t.lexeme| == index - currentLexemeStart
    {
      Token(kind, if kind == EOF then "EOF" else CurrentLexeme(), line)
    }

    /** Consumes and returns the next character; at the end of input it fails instead. */
    method Advance() returns (r: Result<char, LexError>)
      requires Valid()
      modifies this`index
      ensures Valid()
      ensures old(IsAtEnd()) ==> r == Err(AdvancePastEnd) && index == old(index)
      ensures !old(IsAtEnd()) ==> r == Ok(input[old(index)]) && index == old(index) + 1
    {
      if IsAtEnd() {
        return Err(AdvancePastEnd);
      }
      r := Ok(input[index]);
      index := index + 1;
    }

    /** Requires `characters` to follow the cursor, consuming them, and returns a token of the
      * given kind; the first character that does not match is reported. */
    method Consume(kind: TokenType, characters: string) returns (r: Result<Token, LexError>)
      requires Valid()
      modifies this`index
      ensures Valid()
      ensures match ScanWord(input, old(index), characters, 0)
                case Ok(k) => index == k && r == Ok(MakeToken(kind))
                case Err(e) => r == Err(e)
    {
      for k := 0 to |characters|
        invariant Valid() && old(index) <= index
        invariant ScanWord(input, index, characters, k) == ScanWord(input, old(index), characters, 0)
      {
        if Peek() == Some(characters[k]) {
          assert ScanWord(input, index, characters, k) == ScanWord(input, index + 1, characters, k + 1);
          var _ := Advance();
        } else {
          assert ScanWord(input, index, characters, k) == Err(LiteralMismatch(characters[k], Peek(), characters));
          return Err(LiteralMismatch(characters[k], Peek(), characters));
        }
      }
      return Ok(MakeToken(kind));
    }

    /** The inline string loop of `lexToken`: scans the rest of a string literal, whose opening
      * quote was just consumed. */
    method ScanStringLiteral() returns (r: Result<Token, LexError>)
      requires Valid()
      modifies this`index
      ensures Valid()
      ensures match ScanString(input, old(index), OneCharLookback)
                case Ok(k) => index == k && r == Ok(MakeToken(String))
                case Err(e) => r == Err(e)
    {
      while Peek() != Some('"') || PeekBack() == Some('\\')
        invariant Valid() && old(index) <= index
        invariant ScanString(input, index, OneCharLookback) == ScanString(input, old(index), OneCharLookback)
        decreases |input| - index
      {
        if IsAtEnd() {
          return Err(UnterminatedString);
        }
        var _ := Advance();
      }
      var _ := Advance();
      return Ok(MakeToken(String));
    }

    /** The inline number loop of `lexToken`: scans the rest of a number, whose first digit was
      * just consumed. */
    method ScanNumberLiteral() returns (r: Result<Token, LexError>)
      requires Valid()
      modifies this`index
      ensures Valid()
      ensures match ScanNumber(input, old(index))
                case Ok(k) => index == k && r == Ok(MakeToken(Number))
                case Err(e) => r == Err(e)
    {
      while IsDigit(Peek()) || Peek() == Some('.')
        invariant Valid() && old(index) <= index
        invariant ScanNumber(input, index) == ScanNumber(input, old(index))
        decreases |input| - index
      {
        if IsAtEnd() {
          if PeekBack() == Some('.') {
            return Err(UnterminatedNumber);
          }
          break;
        }
        var _ := Advance();
      }
      return Ok(MakeToken(Number));
    }

    /** Lexes one token starting at the cursor; whitespace yields no token. */
    method LexToken() returns (r: Result<Option<Token>, LexError>)
      requires Valid()
      modifies this`index, this`currentLexemeStart, this`line
      ensures Valid()
      ensures match TokenAt(input, old(index), old(line), OneCharLookback)
                case Ok(step) => r == Ok(step.token) && index == step.next && line == step.line
                case Err(e) => r == Err(e)
    {
      currentLexemeStart := index;
      var next := Advance();
      if next.Err? {
        return Err(next.error);
      }
      match next.value
      case ',' => return Ok(Some(MakeToken(Comma)));
      case ':' => return Ok(Some(MakeToken(Colon)));
      case '"' =>
        var t := ScanStringLiteral();
        return if t.Ok? then Ok(Some(t.value)) else Err(t.error);
      case 't' =>
        var t := Consume(True, "rue");
        return if t.Ok? then Ok(Some(t.value)) else Err(t.error);
      case 'f' =>
        var t := Consume(False, "alse");
        return if t.Ok? then Ok(Some(t.value)) else Err(t.error);
      case 'n' =>
        var t := Consume(Null, "ull");
        return if t.Ok? then Ok(Some(t.value)) else Err(t.error);
      case '{' => return Ok(Some(MakeToken(LeftBrace)));
      case '}' => return Ok(Some(MakeToken(RightBrace)));
      case '[' => return Ok(Some(MakeToken(LeftSquareBracket)));
      case ']' => return Ok(Some(MakeToken(RightSquareBracket)));
      case ' ' => return Ok(None);
      case '\r' => return Ok(None);
      case '\t' => return Ok(None);
      case '\n' =>
        line := line + 1;
        return Ok(None);
      case character =>
        if IsDigit(Some(character)) {
          var t := ScanNumberLiteral();
          return if t.Ok? then Ok(Some(t.value)) else Err(t.error);
        }
        return Err(UnexpectedCharacter(character));
    }

    /** Lexes the rest of the input; the result always ends with an EOF token. */
    method Lex() returns (r: Result<seq<Token>, LexError>)
      requires Valid()
      modifies this`index, this`currentLexemeStart, this`line
      ensures Valid()
      ensures r == TokenizeFrom(input, old(index), old(line), OneCharLookback)
      ensures r.Ok? ==> index == |input| && line == r.value[|r.value| - 1].line
      ensures r.Ok? ==> TokenizeFrom(input, index, line, OneCharLookback) == Ok([Token(EOF, "EOF", line)])
    {
      ghost var start, startLine := index, line;
      var tokens: seq<Token> := [];
      while !IsAtEnd()
        invariant Valid()
        invariant ScanAll(input, index, line, tokens, OneCharLookback)
               == ScanAll(input, old(index), old(line), [], OneCharLookback)
        invariant forall t :: t in tokens ==> t.kind != EOF
        decreases |input| - index
      {
        ScanAllStep(input, index, line, tokens, OneCharLookback);
        if TokenAt(input, index, line, OneCharLookback).Ok? && TokenAt(input, index, line, OneCharLookback).value.token.Some? {
          TokenAtWellFormed(input, index, line, OneCharLookback);
        }
        ghost var before := tokens;
        ghost var step := TokenAt(input, index, line, OneCharLookback);
        var token := LexToken();
        if token.Err? {
          assert TokenizeFrom(input, start, startLine, OneCharLookback) == Err(token.error);
          return Err(token.error);
        }
        if token.value.Some? {
          tokens := tokens + [token.value.value];
        }
        assert tokens == before + OptionalToken(step.value.token);
      }
      ScanAllEnd(input, index, line, tokens, OneCharLookback);
      ScanAllEnd(input, index, line, [], OneCharLookback);
      ghost var scanned := tokens;
      if |tokens| == 0 || tokens[|tokens| - 1].kind != EOF {
        tokens := tokens + [MakeToken(EOF)];
      }
      assert tokens == AppendEof(scanned, line);
      assert AppendEof([], line) == [Token(EOF, "EOF", line)];
      assert TokenizeFrom(input, start, startLine, OneCharLookback) == Ok(tokens);
      return Ok(tokens);
    }
  }
}
