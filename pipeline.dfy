/** `new Parser(new Lexer(text).lex()).parse()` from end to end: the lexer properties and the
  * parser properties put together. The lexemes of a well-formed tree, laid out with whitespace
  * and with no number running into a digit or a dot, lex and parse to the tree's meaning; any
  * text that lexes and parses is such a tree's lexemes laid out with whitespace. */
module Pipeline {
  import opened Wrappers
  import opened Token
  import opened Lexing
  import opened Grammar
  import opened LexProperties
  import opened ParseProperties

  /** On the tokens of a successful `lex`, `isAtEnd` holds on the final EOF token and past it,
    * and nowhere before. */
  lemma AtEndOfLexed(s: string, rule: QuoteRule, i: nat)
    requires Tokenize(s, rule).Ok?
    ensures AtEnd(Tokenize(s, rule).value, i) <==> i >= |Tokenize(s, rule).value| - 1
  {
    var gaps := TokenizeLayout(s, rule);
  }

  /** The last token of a well-formed tree is never EOF. */
  lemma {:induction false} LastToken(t: Tree)
    requires WellFormed(t)
    ensures |Render(t)| > 0 && Render(t)[|Render(t)| - 1].kind != EOF
  {
    FirstToken(t);
    match t
    case Leaf(_) =>
    case Obj(open, ms, close) =>
      assert Render(t)[|Render(t)| - 1] == close;
    case Arr(open, es, close) =>
      assert Render(t)[|Render(t)| - 1] == close;
  }

  /** The lexemes of a well-formed tree's tokens `ts`, laid out with whitespace between them, lex
    * to those tokens and then EOF on the last line, and they parse to the tree's meaning. */
  lemma LexThenParse(text: string, gaps: seq<string>, ts: seq<Token>, t: Tree, rule: QuoteRule)
    requires WellFormed(t) && Render(t) == ts
    requires |gaps| == |ts| + 1 && text == Weave(gaps, ts)
    requires Layout(ts, gaps, 1, rule) && Delimited(ts, gaps)
    ensures Tokenize(text, rule) == Ok(ts + [Token(EOF, "EOF", 1 + Lines(gaps))])
    ensures Parse(Tokenize(text, rule).value) == Ok(Meaning(t))
  {
    TokenizeWoven(text, gaps, ts, rule);
    ParseRendered(t, Token(EOF, "EOF", 1 + Lines(gaps)));
  }

  /** Conversely, a text that lexes and then parses is the lexemes of a well-formed tree laid out
    * with whitespace between them and no number running into a digit or a dot, exactly what
    * `LexThenParse` asks for; the tokens before EOF are that tree's, and the value is its
    * meaning. */
  lemma ParsedText(text: string, rule: QuoteRule) returns (gaps: seq<string>, t: Tree)
    requires Tokenize(text, rule).Ok? && Parse(Tokenize(text, rule).value).Ok?
    ensures WellFormed(t) && |gaps| == |Render(t)| + 1 && text == Weave(gaps, Render(t))
    ensures forall k :: 0 <= k < |gaps| ==> IsBlank(gaps[k])
    ensures Layout(Render(t), gaps, 1, rule) && Delimited(Render(t), gaps)
    ensures Tokenize(text, rule).value == Render(t) + [Token(EOF, "EOF", 1 + Lines(gaps))]
    ensures Parse(Tokenize(text, rule).value) == Ok(Meaning(t))
  {
    var ts := Tokenize(text, rule).value;
    t := ParseSound(ts);
    ParsedAllButEof(text, rule, t);
    assert ts == Render(t) + [ts[|ts| - 1]];
    gaps := TokenizeLayout(text, rule);
  }

  /** A tree that the parser reads from the start of a successful `lex` up to the end covers
    * every token but the final EOF. */
  lemma ParsedAllButEof(text: string, rule: QuoteRule, t: Tree)
    requires Tokenize(text, rule).Ok?
    requires var ts := Tokenize(text, rule).value;
             WellFormed(t) && At(ts, 0, Render(t)) && AtEnd(ts, |Render(t)|)
    ensures var ts := Tokenize(text, rule).value;
            Render(t) == ts[..|ts| - 1]
  {
    var ts := Tokenize(text, rule).value;
    LastToken(t);
    AtEndOfLexed(text, rule, |Render(t)|);
    AtIsSlice(ts, 0, Render(t));
  }
}
