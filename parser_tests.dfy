/** The parser test suite (src/parser/__tests__/parser.test.ts) and the parser's error paths as
  * lemmas about the reference parser. Each test of the suite runs both classes on the test's text,
  * as the test file does; an object test first shows that the text is the lexemes of a well-formed
  * tree laid out on one line, and that the tree's tokens parse to the expected value. The error
  * paths and the extra cases are stated over token sequences. */
module ParserTests {
  import opened Wrappers
  import opened Token
  import opened Grammar
  import opened ParseProperties
  import opened Lexing
  import opened LexProperties
  import opened Pipeline
  import LexerTests
  import Lexer
  import SimpleParserImpl

  const End := Token(EOF, "EOF", 1)
  const OpenBrace := Token(LeftBrace, "{", 1)
  const CloseBrace := Token(RightBrace, "}", 1)
  const OpenBracket := Token(LeftSquareBracket, "[", 1)
  const CloseBracket := Token(RightSquareBracket, "]", 1)
  const ColonToken := Token(Colon, ":", 1)
  const CommaToken := Token(Comma, ",", 1)
  const KeyA := Token(String, "\"a\"", 1)
  const KeyB := Token(String, "\"b\"", 1)
  const KeyC := Token(String, "\"c\"", 1)
  const KeyD := Token(String, "\"d\"", 1)
  const One := Token(Number, "1", 1)
  const Two := Token(Number, "2", 1)

  /** A String token whose lexeme is `text` in quotes stands for `text`. */
  lemma StringToken(text: string, lexeme: string)
    requires lexeme == "\"" + text + "\""
    ensures KeyText(Token(String, lexeme, 1)) == text
    ensures Meaning(Leaf(Token(String, lexeme, 1))) == JString(text)
  {
    QuotedValue(text, 1);
  }

  /** `new Parser(new Lexer(text).lex()).parse()`, with the lexer of lexer.ts as the test file
    * imports it; there is nothing to parse when lexing fails. */
  method LexAndParse(text: string) returns (tokens: Result<seq<Token>, LexError>, parsed: Option<Result<JValue, ParseError>>)
    ensures tokens == Tokenize(text, OneCharLookback)
    ensures parsed.Some? <==> tokens.Ok?
    ensures tokens.Ok? ==> parsed.value == Parse(tokens.value)
  {
    var lexer := new Lexer.Lexer(text);
    tokens := lexer.Lex();
    if tokens.Err? {
      return tokens, None;
    }
    var parser := new SimpleParserImpl.Parser(tokens.value);
    var r := parser.Parse();
    parsed := Some(r);
  }

  /** The top-level string test: `"abc"` is the string abc. */
  method TopLevelString() returns (r: Result<JValue, ParseError>)
    ensures r == Ok(JString("abc"))
  {
    LexerTests.LexPlainString();
    StringToken("abc", "\"abc\"");
    ParseRendered(Leaf(Token(String, "\"abc\"", 1)), End);
    var _, parsed := LexAndParse("\"abc\"");
    return parsed.value;
  }

  /** The top-level number test: `1.23` is a number, kept as its lexeme. */
  method TopLevelNumber() returns (r: Result<JValue, ParseError>)
    ensures r == Ok(JNumber("1.23"))
  {
    LexerTests.LexNumbers();
    ParseRendered(Leaf(Token(Number, "1.23", 1)), End);
    var _, parsed := LexAndParse("1.23");
    return parsed.value;
  }

  /** The top-level boolean test: `true` is true. */
  method TopLevelTrue() returns (r: Result<JValue, ParseError>)
    ensures r == Ok(JBool(true))
  {
    LexerTests.LexTrue();
    ParseRendered(Leaf(Token(True, "true", 1)), End);
    var _, parsed := LexAndParse("true");
    return parsed.value;
  }

  /** The top-level null test: `null` is null. */
  method TopLevelNull() returns (r: Result<JValue, ParseError>)
    ensures r == Ok(JNull)
  {
    LexerTests.LexNull();
    ParseRendered(Leaf(Token(Null, "null", 1)), End);
    var _, parsed := LexAndParse("null");
    return parsed.value;
  }

  /** Gaps of spaces only, around tokens that are all on line 1 and each have the lexeme its
    * kind calls for, make a one-line layout. */
  lemma OneLineLayout(ts: seq<Token>, gaps: seq<string>)
    requires |gaps| == |ts| + 1
    requires forall k :: 0 <= k < |gaps| ==> gaps[k] == "" || gaps[k] == " "
    requires forall k :: 0 <= k < |ts| ==> ts[k].line == 1 && WellFormedToken(ts[k], OneCharLookback)
    ensures Layout(ts, gaps, 1, OneCharLookback)
  {
    assert NewlineCount(" ") == NewlineCount("") == 0;
    forall k | 0 <= k < |gaps|
      ensures IsBlank(gaps[k]) && NewlineCount(gaps[k]) == 0
    {
    }
    LayoutByIndex(ts, gaps, 1, OneCharLookback);
  }

  /** `{ "a": 1, "b": false, "c": "foo", "d": null }` as a tree. */
  const SimpleObject :=
    Obj(OpenBrace,
        Pair(None, KeyA, ColonToken, Leaf(One),
        Pair(Some(CommaToken), KeyB, ColonToken, Leaf(Token(False, "false", 1)),
        Pair(Some(CommaToken), KeyC, ColonToken, Leaf(Token(String, "\"foo\"", 1)),
        Pair(Some(CommaToken), KeyD, ColonToken, Leaf(Token(Null, "null", 1)), NoMembers)))),
        CloseBrace)

  /** The tokens of `{ "a": 1, "b": false, "c": "foo", "d": null }` before EOF, pair by pair. */
  const SimpleObjectTokens :=
    [OpenBrace]
    + [KeyA, ColonToken, One]
    + [CommaToken, KeyB, ColonToken, Token(False, "false", 1)]
    + [CommaToken, KeyC, ColonToken, Token(String, "\"foo\"", 1)]
    + [CommaToken, KeyD, ColonToken, Token(Null, "null", 1)]
    + [CloseBrace]

  /** The whitespace before each token of the simple object and after the last: one space after
    * each opening brace, colon and comma and before the closing brace. */
  const SimpleObjectGaps: seq<string> :=
    ["", " ", "", " ", "", " ", "", " ", "", " ", "", " ", "", " ", "", " ", " ", ""]

  /** The text of the simple-object test, `{ "a": 1, "b": false, "c": "foo", "d": null }`: the
    * lexemes with the gaps between them. */
  const SimpleObjectText := Weave(SimpleObjectGaps, SimpleObjectTokens)

  /** The simple object is a well-formed tree. */
  lemma SimpleObjectWellFormed()
    ensures WellFormed(SimpleObject)
  {
    var m1 := SimpleObject.members;
    assert MembersWellFormed(m1.rest.rest.rest, true);
    assert MembersWellFormed(m1.rest.rest, true);
    assert MembersWellFormed(m1.rest, true);
    assert MembersWellFormed(m1, false);
  }

  /** The simple object renders as its tokens. */
  lemma SimpleObjectRenders()
    ensures Render(SimpleObject) == SimpleObjectTokens
  {
    var m1 := SimpleObject.members;
    var m2 := m1.rest;
    var m3 := m2.rest;
    var m4 := m3.rest;
    assert RenderMembers(m4) == [CommaToken, KeyD, ColonToken, Token(Null, "null", 1)];
    assert RenderMembers(m3) == [CommaToken, KeyC, ColonToken, Token(String, "\"foo\"", 1)] + RenderMembers(m4);
    assert RenderMembers(m2) == [CommaToken, KeyB, ColonToken, Token(False, "false", 1)] + RenderMembers(m3);
    assert RenderMembers(m1) == [KeyA, ColonToken, One] + RenderMembers(m2);
  }

  /** The simple object stands for the object the test expects. */
  lemma SimpleObjectMeaning()
    ensures Meaning(SimpleObject)
         == JObject(map["a" := JNumber("1"), "b" := JBool(false), "c" := JString("foo"), "d" := JNull])
  {
    StringToken("a", "\"a\"");
    StringToken("b", "\"b\"");
    StringToken("c", "\"c\"");
    StringToken("d", "\"d\"");
    StringToken("foo", "\"foo\"");
    var m1 := SimpleObject.members;
    var m2 := m1.rest;
    var m3 := m2.rest;
    var m4 := m3.rest;
    var f1 := map["a" := JNumber("1")];
    var f2 := f1["b" := JBool(false)];
    var f3 := f2["c" := JString("foo")];
    assert Fields(m4, f3) == f3["d" := JNull];
    assert Fields(m3, f2) == f3["d" := JNull];
    assert Fields(m2, f1) == f3["d" := JNull];
    assert Fields(m1, map[]) == f3["d" := JNull];
  }

  /** Every gap of the simple object is empty or one space. */
  lemma SimpleObjectSpaces()
    ensures |SimpleObjectGaps| == |SimpleObjectTokens| + 1
    ensures forall k :: 0 <= k < |SimpleObjectGaps| ==> SimpleObjectGaps[k] == "" || SimpleObjectGaps[k] == " "
  {
  }

  /** Every token of the simple object is on line 1 and has the lexeme its kind calls for. */
  lemma SimpleObjectOnLineOne()
    ensures forall k :: 0 <= k < |SimpleObjectTokens| ==>
              SimpleObjectTokens[k].line == 1 && WellFormedToken(SimpleObjectTokens[k], OneCharLookback)
  {
  }

  /** The simple object's one number is followed by a comma. */
  lemma SimpleObjectDelimited()
    ensures |SimpleObjectGaps| == |SimpleObjectTokens| + 1
    ensures Delimited(SimpleObjectTokens, SimpleObjectGaps)
  {
    DelimitedByIndex(SimpleObjectTokens, SimpleObjectGaps);
  }

  /** The simple object's text is laid out on one line. */
  lemma SimpleObjectLaidOut()
    ensures |SimpleObjectGaps| == |SimpleObjectTokens| + 1
    ensures Layout(SimpleObjectTokens, SimpleObjectGaps, 1, OneCharLookback)
  {
    SimpleObjectSpaces();
    SimpleObjectOnLineOne();
    OneLineLayout(SimpleObjectTokens, SimpleObjectGaps);
  }

  /** The simple-object test on tokens: they parse to `{a: 1, b: false, c: "foo", d: null}`. */
  lemma ParseSimpleObject()
    ensures Parse(SimpleObjectTokens + [End])
         == Ok(JObject(map["a" := JNumber("1"), "b" := JBool(false), "c" := JString("foo"), "d" := JNull]))
  {
    SimpleObjectWellFormed();
    SimpleObjectRenders();
    SimpleObjectMeaning();
    ParseRendered(SimpleObject, End);
  }

  /** The simple-object test from its text: it lexes, and the tokens parse to the expected
    * object. */
  lemma SimpleObjectLexesAndParses()
    ensures Tokenize(SimpleObjectText, OneCharLookback).Ok?
    ensures Parse(Tokenize(SimpleObjectText, OneCharLookback).value)
         == Ok(JObject(map["a" := JNumber("1"), "b" := JBool(false), "c" := JString("foo"), "d" := JNull]))
  {
    SimpleObjectWellFormed();
    SimpleObjectRenders();
    SimpleObjectMeaning();
    SimpleObjectLaidOut();
    SimpleObjectDelimited();
    LexThenParse(SimpleObjectText, SimpleObjectGaps, SimpleObjectTokens, SimpleObject, OneCharLookback);
  }

  /** The simple-object test run through both classes. */
  method SimpleObjectFromText() returns (r: Result<JValue, ParseError>)
    ensures r == Ok(JObject(map["a" := JNumber("1"), "b" := JBool(false), "c" := JString("foo"), "d" := JNull]))
  {
    SimpleObjectLexesAndParses();
    var _, parsed := LexAndParse(SimpleObjectText);
    return parsed.value;
  }

  /** `{ "a": {} }` as a tree. */
  const EmptyInnerObject :=
    Obj(OpenBrace, Pair(None, KeyA, ColonToken, Obj(OpenBrace, NoMembers, CloseBrace), NoMembers), CloseBrace)

  /** The tokens of `{ "a": {} }` before EOF. */
  const EmptyInnerTokens := [OpenBrace, KeyA, ColonToken, OpenBrace, CloseBrace, CloseBrace]

  /** The whitespace before each token of `{ "a": {} }` and after the last. */
  const EmptyInnerGaps: seq<string> := ["", " ", "", " ", "", " ", ""]

  /** The text of the empty-object test. */
  const EmptyInnerText := "{ \"a\": {} }"

  /** The test's text is the lexemes of its tokens with the gaps between them. */
  lemma EmptyInnerWoven()
    ensures |EmptyInnerGaps| == |EmptyInnerTokens| + 1
    ensures Weave(EmptyInnerGaps, EmptyInnerTokens) == EmptyInnerText
  {
    var gs, ts := EmptyInnerGaps, EmptyInnerTokens;
    assert Weave(gs[6..], ts[6..]) == "";
    assert Weave(gs[5..], ts[5..]) == " }";
    assert Weave(gs[4..], ts[4..]) == "} }";
    assert Weave(gs[3..], ts[3..]) == " {} }";
    assert Weave(gs[2..], ts[2..]) == ": {} }";
    assert Weave(gs[1..], ts[1..]) == " \"a\": {} }";
  }

  /** The test's text is laid out on one line and holds no number. */
  lemma EmptyInnerLaidOut()
    ensures |EmptyInnerGaps| == |EmptyInnerTokens| + 1
    ensures Layout(EmptyInnerTokens, EmptyInnerGaps, 1, OneCharLookback)
    ensures Delimited(EmptyInnerTokens, EmptyInnerGaps)
  {
    OneLineLayout(EmptyInnerTokens, EmptyInnerGaps);
    DelimitedByIndex(EmptyInnerTokens, EmptyInnerGaps);
  }

  /** The empty-object test on tokens: an empty object nested as a value. */
  lemma ParseEmptyInnerObject()
    ensures WellFormed(EmptyInnerObject) && Render(EmptyInnerObject) == EmptyInnerTokens
    ensures Meaning(EmptyInnerObject) == JObject(map["a" := JObject(map[])])
    ensures Parse(EmptyInnerTokens + [End]) == Ok(JObject(map["a" := JObject(map[])]))
  {
    StringToken("a", "\"a\"");
    assert Render(EmptyInnerObject) == EmptyInnerTokens;
    ParseRendered(EmptyInnerObject, End);
  }

  /** The empty-object test from its text: it lexes, and the tokens parse to the expected
    * object. */
  lemma EmptyInnerLexesAndParses()
    ensures Tokenize(EmptyInnerText, OneCharLookback).Ok?
    ensures Parse(Tokenize(EmptyInnerText, OneCharLookback).value) == Ok(JObject(map["a" := JObject(map[])]))
  {
    ParseEmptyInnerObject();
    EmptyInnerWoven();
    EmptyInnerLaidOut();
    LexThenParse(EmptyInnerText, EmptyInnerGaps, EmptyInnerTokens, EmptyInnerObject, OneCharLookback);
  }

  /** The empty-object test run through both classes. */
  method EmptyInnerObjectFromText() returns (r: Result<JValue, ParseError>)
    ensures r == Ok(JObject(map["a" := JObject(map[])]))
  {
    EmptyInnerLexesAndParses();
    var _, parsed := LexAndParse(EmptyInnerText);
    return parsed.value;
  }

  /** `{ "a": { "b": 1 } }` as a tree. */
  const NestedObject :=
    Obj(OpenBrace,
        Pair(None, KeyA, ColonToken,
             Obj(OpenBrace, Pair(None, KeyB, ColonToken, Leaf(One), NoMembers), CloseBrace),
             NoMembers),
        CloseBrace)

  /** The tokens of `{ "a": { "b": 1 } }` before EOF. */
  const NestedTokens := [OpenBrace, KeyA, ColonToken, OpenBrace, KeyB, ColonToken, One, CloseBrace, CloseBrace]

  /** The whitespace before each token of `{ "a": { "b": 1 } }` and after the last. */
  const NestedGaps: seq<string> := ["", " ", "", " ", " ", "", " ", " ", " ", ""]

  /** The text of the nested-object test. */
  const NestedText := "{ \"a\": { \"b\": 1 } }"

  /** The inner object's text with what follows it. */
  lemma NestedInnerWoven()
    ensures Weave(NestedGaps[4..], NestedTokens[4..]) == " \"b\": 1 } }"
  {
    var gs, ts := NestedGaps, NestedTokens;
    assert Weave(gs[9..], ts[9..]) == "";
    assert Weave(gs[8..], ts[8..]) == " }";
    assert Weave(gs[7..], ts[7..]) == " } }";
    assert Weave(gs[6..], ts[6..]) == " 1 } }";
    assert Weave(gs[5..], ts[5..]) == ": 1 } }";
  }

  /** The text from the colon after the outer key. */
  lemma NestedValueWoven()
    ensures Weave(NestedGaps[2..], NestedTokens[2..]) == ": { \"b\": 1 } }"
  {
    var gs, ts := NestedGaps, NestedTokens;
    NestedInnerWoven();
    assert Weave(gs[3..], ts[3..]) == " { \"b\": 1 } }";
  }

  /** The text from the outer key. */
  lemma NestedKeyWoven()
    ensures Weave(NestedGaps[1..], NestedTokens[1..]) == " \"a\": { \"b\": 1 } }"
  {
    var gs, ts := NestedGaps, NestedTokens;
    NestedValueWoven();
    assert Weave(gs[1..], ts[1..]) == gs[1] + ts[1].lexeme + Weave(gs[2..], ts[2..]);
  }

  /** The test's text is the lexemes of its tokens with the gaps between them. */
  lemma NestedWoven()
    ensures |NestedGaps| == |NestedTokens| + 1
    ensures Weave(NestedGaps, NestedTokens) == NestedText
  {
    var gs, ts := NestedGaps, NestedTokens;
    NestedKeyWoven();
    assert Weave(gs, ts) == "" + "{" + Weave(gs[1..], ts[1..]);
  }

  /** The test's text is laid out on one line, and a space follows its one number. */
  lemma NestedLaidOut()
    ensures |NestedGaps| == |NestedTokens| + 1
    ensures Layout(NestedTokens, NestedGaps, 1, OneCharLookback)
    ensures Delimited(NestedTokens, NestedGaps)
  {
    OneLineLayout(NestedTokens, NestedGaps);
    DelimitedByIndex(NestedTokens, NestedGaps);
  }

  /** The nested object is a well-formed tree that renders as its tokens. */
  lemma NestedRenders()
    ensures WellFormed(NestedObject) && Render(NestedObject) == NestedTokens
  {
    assert Render(NestedObject.members.value) == [OpenBrace, KeyB, ColonToken, One, CloseBrace];
  }

  /** The nested object stands for the object the test expects. */
  lemma NestedMeaning()
    ensures Meaning(NestedObject) == JObject(map["a" := JObject(map["b" := JNumber("1")])])
  {
    StringToken("a", "\"a\"");
    StringToken("b", "\"b\"");
  }

  /** The nested-object test on tokens. */
  lemma ParseNestedObject()
    ensures Parse(NestedTokens + [End]) == Ok(JObject(map["a" := JObject(map["b" := JNumber("1")])]))
  {
    NestedRenders();
    NestedMeaning();
    ParseRendered(NestedObject, End);
  }

  /** The nested-object test from its text: it lexes, and the tokens parse to the expected
    * object. */
  lemma NestedLexesAndParses()
    ensures Tokenize(NestedText, OneCharLookback).Ok?
    ensures Parse(Tokenize(NestedText, OneCharLookback).value)
         == Ok(JObject(map["a" := JObject(map["b" := JNumber("1")])]))
  {
    NestedRenders();
    NestedMeaning();
    NestedWoven();
    NestedLaidOut();
    LexThenParse(NestedText, NestedGaps, NestedTokens, NestedObject, OneCharLookback);
  }

  /** The nested-object test run through both classes. */
  method NestedObjectFromText() returns (r: Result<JValue, ParseError>)
    ensures r == Ok(JObject(map["a" := JObject(map["b" := JNumber("1")])]))
  {
    NestedLexesAndParses();
    var _, parsed := LexAndParse(NestedText);
    return parsed.value;
  }

  /** `{ "a": 1, "a": 2 }`: the key written last wins. */
  lemma ParseRepeatedKey()
    ensures Parse([OpenBrace, KeyA, ColonToken, One, CommaToken, KeyA, ColonToken, Two, CloseBrace, End])
         == Ok(JObject(map["a" := JNumber("2")]))
  {
    var t := Obj(OpenBrace, Pair(None, KeyA, ColonToken, Leaf(One), Pair(Some(CommaToken), KeyA, ColonToken, Leaf(Two), NoMembers)), CloseBrace);
    StringToken("a", "\"a\"");
    assert Render(t) + [End] == [OpenBrace, KeyA, ColonToken, One, CommaToken, KeyA, ColonToken, Two, CloseBrace, End];
    ParseRendered(t, End);
    assert map["a" := JNumber("1")]["a" := JNumber("2")] == map["a" := JNumber("2")];
  }

  /** `[1, [], 2]` as a tree. */
  const MixedArray :=
    Arr(OpenBracket,
        Element(None, Leaf(One),
        Element(Some(CommaToken), Arr(OpenBracket, NoElements, CloseBracket),
        Element(Some(CommaToken), Leaf(Two), NoElements))),
        CloseBracket)

  /** The mixed array is a well-formed tree that renders as the tokens of `[1, [], 2]`. */
  lemma MixedArrayRenders()
    ensures WellFormed(MixedArray)
    ensures Render(MixedArray) + [End]
         == [OpenBracket] + [One] + [CommaToken, OpenBracket, CloseBracket] + [CommaToken, Two] + [CloseBracket, End]
  {
    var e1 := MixedArray.elements;
    assert ElementsWellFormed(e1.rest.rest, true);
    assert ElementsWellFormed(e1.rest, true);
    assert ElementsWellFormed(e1, false);
    assert RenderElements(e1.rest.rest) == [CommaToken, Two];
    assert RenderElements(e1.rest) == [CommaToken, OpenBracket, CloseBracket] + RenderElements(e1.rest.rest);
    assert RenderElements(e1) == [One] + RenderElements(e1.rest);
  }

  /** The mixed array stands for the array the test expects. */
  lemma MixedArrayMeaning()
    ensures Meaning(MixedArray) == JArray([JNumber("1"), JArray([]), JNumber("2")])
  {
    var e1 := MixedArray.elements;
    assert Meaning(Leaf(One)) == JNumber("1") && Meaning(Leaf(Two)) == JNumber("2");
    assert Values(e1.rest.rest) == [JNumber("2")];
    assert Values(e1.rest) == [JArray([]), JNumber("2")];
    assert Values(e1) == [JNumber("1"), JArray([]), JNumber("2")];
  }

  /** `[1, [], 2]`: arrays keep their order and an empty array nests. */
  lemma ParseMixedArray()
    ensures Parse([OpenBracket] + [One] + [CommaToken, OpenBracket, CloseBracket] + [CommaToken, Two] + [CloseBracket, End])
         == Ok(JArray([JNumber("1"), JArray([]), JNumber("2")]))
  {
    MixedArrayRenders();
    MixedArrayMeaning();
    ParseRendered(MixedArray, End);
  }

  /** `{ "a": 1`: the input ends before the closing brace. */
  lemma ParseUnclosedObject()
    ensures Parse([OpenBrace, KeyA, ColonToken, One, End]) == Err(ParseError.AdvancePastEnd)
  {
    var ts := [OpenBrace, KeyA, ColonToken, One, End];
    var ms := Pair(None, KeyA, ColonToken, Leaf(One), NoMembers);
    assert ts[1..4] == RenderMembers(ms);
    AtIsSlice(ts, 1, RenderMembers(ms));
    MembersUnclosed(ts, 1, ms, false, map[]);
  }

  /** `{ "a": 1, }`: a comma before the closing brace. */
  lemma ParseTrailingCommaInObject()
    ensures Parse([OpenBrace, KeyA, ColonToken, One, CommaToken, CloseBrace, End]) == Err(InvalidValue)
  {
    var ts := [OpenBrace, KeyA, ColonToken, One, CommaToken, CloseBrace, End];
    var ms := Pair(None, KeyA, ColonToken, Leaf(One), NoMembers);
    assert ts[1..4] == RenderMembers(ms);
    AtIsSlice(ts, 1, RenderMembers(ms));
    MembersTrailingComma(ts, 1, ms, false, map[]);
  }

  /** `{ "a": 1 "b": 2 }`: two pairs without a comma between them. */
  lemma ParseMissingCommaInObject()
    ensures Parse([OpenBrace, KeyA, ColonToken, One, KeyB, ColonToken, Two, CloseBrace, End])
         == Err(MissingComma(InObject))
  {
    var ts := [OpenBrace, KeyA, ColonToken, One, KeyB, ColonToken, Two, CloseBrace, End];
    var ms := Pair(None, KeyA, ColonToken, Leaf(One), NoMembers);
    assert ts[1..4] == RenderMembers(ms);
    AtIsSlice(ts, 1, RenderMembers(ms));
    MembersMissingComma(ts, 1, ms, false, map[]);
  }

  /** `{ 1: 2 }`: a key that is not a string. */
  lemma ParseNumberKey()
    ensures Parse([OpenBrace, One, ColonToken, Two, CloseBrace, End]) == Err(BadKey)
  {
    var ts := [OpenBrace, One, ColonToken, Two, CloseBrace, End];
    assert ts[1..1] == RenderMembers(NoMembers);
    AtIsSlice(ts, 1, RenderMembers(NoMembers));
    MembersBadKey(ts, 1, NoMembers, false, map[]);
  }

  /** `{ "a" 1 }`: a key without its colon. */
  lemma ParseMissingColon()
    ensures Parse([OpenBrace, KeyA, One, CloseBrace, End]) == Err(MissingColon)
  {
    var ts := [OpenBrace, KeyA, One, CloseBrace, End];
    assert ts[1..1] == RenderMembers(NoMembers);
    AtIsSlice(ts, 1, RenderMembers(NoMembers));
    MembersMissingColon(ts, 1, NoMembers, false, map[]);
  }

  /** `[1, ]`: a comma before the closing bracket. */
  lemma ParseTrailingCommaInArray()
    ensures Parse([OpenBracket, One, CommaToken, CloseBracket, End]) == Err(InvalidValue)
  {
    var ts := [OpenBracket, One, CommaToken, CloseBracket, End];
    var es := Element(None, Leaf(One), NoElements);
    assert ts[1..2] == RenderElements(es);
    AtIsSlice(ts, 1, RenderElements(es));
    ElementsTrailingComma(ts, 1, es, false, []);
    assert ValueAt(ts, 0) == ElementsAt(ts, 1, false, []);
  }

  /** `[1 2]`: two elements without a comma between them. */
  lemma ParseMissingCommaInArray()
    ensures Parse([OpenBracket, One, Two, CloseBracket, End]) == Err(MissingComma(InArray))
  {
    var ts := [OpenBracket, One, Two, CloseBracket, End];
    var es := Element(None, Leaf(One), NoElements);
    assert ts[1..2] == RenderElements(es);
    AtIsSlice(ts, 1, RenderElements(es));
    ElementsMissingComma(ts, 1, es, false, []);
    assert ValueAt(ts, 0) == ElementsAt(ts, 1, false, []);
  }

  /** `[1`: the input ends before the closing bracket. */
  lemma ParseUnclosedArray()
    ensures Parse([OpenBracket, One, End]) == Err(ParseError.AdvancePastEnd)
  {
    var ts := [OpenBracket, One, End];
    var es := Element(None, Leaf(One), NoElements);
    assert ts[1..2] == RenderElements(es);
    AtIsSlice(ts, 1, RenderElements(es));
    ElementsUnclosed(ts, 1, es, false, []);
    assert ValueAt(ts, 0) == ElementsAt(ts, 1, false, []);
  }

  /** `1 2`: a second value after the first. */
  lemma ParseTrailingValue()
    ensures Parse([One, Two, End]) == Err(TrailingData)
  {
    var ts := [One, Two, End];
    assert ts[0..1] == Render(Leaf(One));
    AtIsSlice(ts, 0, Render(Leaf(One)));
    ParseTrailingData(ts, Leaf(One));
  }
}
