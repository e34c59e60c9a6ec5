/** The reference parser: what the recursive descent of src/parser/SimpleParserImpl.ts computes,
  * written as functions of the token sequence and a cursor position. Each function returns the
  * value it read and the position after it, or the error the parser throws. */
module Grammar {
  import opened Wrappers
  import opened Token

  /** The values the parser builds. Numbers keep their lexeme; object fields are a map, so a
    * repeated key keeps the value assigned last. */
  datatype JValue =
    | JString(text: string)
    | JNumber(lexeme: string)
    | JBool(b: bool)
    | JNull
    | JObject(fields: map<string, JValue>)
    | JArray(elements: seq<JValue>)

  /** Which loop reported a missing comma. */
  datatype Container = InObject | InArray

  /** What the parser throws. */
  datatype ParseError =
    | MissingComma(container: Container)
    | BadKey
    | MissingColon
    | InvalidValue
    | TrailingData
    | AdvancePastEnd

  /** The value of a scalar token. */
  function FromScalar(s: Scalar): (v: JValue) {
    match s
    case SString(text) => JString(text)
    case SNumber(lexeme) => JNumber(lexeme)
    case SBool(b) => JBool(b)
    case SNull => JNull
  }

  /** `isAtEnd` at position `i`: past the last token, or on an EOF token. */
  predicate AtEnd(ts: seq<Token>, i: nat)
    ensures AtEnd(ts, i) <==> i >= |ts| || ts[i].kind == EOF
  {
    i + 1 > |ts| || ts[i].kind == EOF
  }

  /** `check(kind)` at position `i`. */
  predicate CheckAt(ts: seq<Token>, i: nat, kind: TokenType)
    ensures CheckAt(ts, i, kind) <==> i < |ts| && ts[i].kind == kind && kind != EOF
  {
    !AtEnd(ts, i) && ts[i].kind == kind
  }

  /** `parsePrimitive` at `i`: a String, Number, True, False or Null token and its value. */
  function PrimitiveAt(ts: seq<Token>, i: nat): (r: Result<(JValue, nat), ParseError>)
    ensures r.Ok? <==> !AtEnd(ts, i) && IsPrimitive(ts[i].kind)
    ensures r.Ok? ==> r.value.1 == i + 1 && r.value.0 == FromScalar(GetTokenValue(ts[i]).value)
    ensures r.Err? ==> r.error == InvalidValue
  {
    if !AtEnd(ts, i) && IsPrimitive(ts[i].kind) then
      Ok((FromScalar(GetTokenValue(ts[i]).value), i + 1))
    else Err(InvalidValue)
  }

  /** `parseObject` at `i`: an object when a left brace is there, otherwise `parseArray`. */
  function ValueAt(ts: seq<Token>, i: nat): (r: Result<(JValue, nat), ParseError>)
    decreases |ts| - i, 2
    ensures r.Ok? ==> i < r.value.1 <= |ts|
  {
    if CheckAt(ts, i, LeftBrace) then MembersAt(ts, i + 1, false, map[]) else ArrayAt(ts, i)
  }

  /** `parseArray` at `i`: an array when a left square bracket is there, otherwise
    * `parsePrimitive`. */
  function ArrayAt(ts: seq<Token>, i: nat): (r: Result<(JValue, nat), ParseError>)
    decreases |ts| - i, 1
    ensures r.Ok? ==> i < r.value.1 <= |ts|
  {
    if CheckAt(ts, i, LeftSquareBracket) then ElementsAt(ts, i + 1, false, []) else PrimitiveAt(ts, i)
  }

  /** The loop of `parseObject` from `i`, with the fields read so far: until the end or a right
    * brace, each pair (after a comma once one has been read) is a string key, a colon and a
    * value; the closing brace is then consumed. */
  function MembersAt(ts: seq<Token>, i: nat, expectingComma: bool, fields: map<string, JValue>)
    : (r: Result<(JValue, nat), ParseError>)
    decreases |ts| - i, 3
    ensures r.Ok? ==> i < r.value.1 <= |ts| && r.value.0.JObject?
  {
    if AtEnd(ts, i) || ts[i].kind == RightBrace then
      if AtEnd(ts, i) then Err(AdvancePastEnd) else Ok((JObject(fields), i + 1))
    else if expectingComma && !CheckAt(ts, i, Comma) then Err(MissingComma(InObject))
    else
      var j := if expectingComma then i + 1 else i;
      var (key, k) :- PrimitiveAt(ts, j);
      if !key.JString? then Err(BadKey)
      else if !CheckAt(ts, k, Colon) then Err(MissingColon)
      else
        var (value, next) :- ValueAt(ts, k + 1);
        MembersAt(ts, next, true, fields[key.text := value])
  }

  /** `parseObject` on a left brace runs its loop from the next token. */
  lemma {:induction false} ValueAtObject(ts: seq<Token>, i: nat)
    requires CheckAt(ts, i, LeftBrace)
    ensures ValueAt(ts, i) == MembersAt(ts, i + 1, false, map[])
  {
  }

  /** `parseObject` on a left square bracket is `parseArray`, which runs its loop from the next
    * token. */
  lemma {:induction false} ValueAtArray(ts: seq<Token>, i: nat)
    requires CheckAt(ts, i, LeftSquareBracket)
    ensures ValueAt(ts, i) == ElementsAt(ts, i + 1, false, [])
  {
  }

  /** One pass of the `parseObject` loop: the comma (once one pair has been read), a string key
    * at `keyAt`, a colon, and a value from `valueAt` to `next`; the loop then goes on at `next`
    * with the pair assigned. */
  lemma {:induction false} MembersAtStep(ts: seq<Token>, i: nat, expectingComma: bool, fields: map<string, JValue>,
                      keyAt: nat, key: string, valueAt: nat, value: JValue, next: nat)
    requires !AtEnd(ts, i) && ts[i].kind != RightBrace
    requires expectingComma ==> CheckAt(ts, i, Comma)
    requires keyAt == if expectingComma then i + 1 else i
    requires PrimitiveAt(ts, keyAt) == Ok((JString(key), keyAt + 1)) && CheckAt(ts, keyAt + 1, Colon)
    requires valueAt == keyAt + 2 && ValueAt(ts, valueAt) == Ok((value, next))
    ensures MembersAt(ts, i, expectingComma, fields) == MembersAt(ts, next, true, fields[key := value])
  {
  }

  /** The `parseObject` loop on a right brace: the object is complete. */
  lemma {:induction false} MembersAtClose(ts: seq<Token>, i: nat, expectingComma: bool, fields: map<string, JValue>)
    requires i < |ts| && ts[i].kind == RightBrace
    ensures MembersAt(ts, i, expectingComma, fields) == Ok((JObject(fields), i + 1))
  {
  }

  /** The `parseObject` loop at the end of the input: the brace is missing. */
  lemma {:induction false} MembersAtEnd(ts: seq<Token>, i: nat, expectingComma: bool, fields: map<string, JValue>)
    requires AtEnd(ts, i)
    ensures MembersAt(ts, i, expectingComma, fields) == Err(AdvancePastEnd)
  {
  }

  /** The `parseObject` loop expecting a comma on anything but a comma or a right brace. */
  lemma {:induction false} MembersAtNoComma(ts: seq<Token>, i: nat, fields: map<string, JValue>)
    requires !AtEnd(ts, i) && ts[i].kind != Comma && ts[i].kind != RightBrace
    ensures MembersAt(ts, i, true, fields) == Err(MissingComma(InObject))
  {
  }

  /** The `parseObject` loop on a key that is a value but not a string. */
  lemma {:induction false} MembersAtBadKey(ts: seq<Token>, i: nat, expectingComma: bool, fields: map<string, JValue>)
    requires expectingComma ==> CheckAt(ts, i, Comma)
    requires var k := if expectingComma then i + 1 else i;
             !AtEnd(ts, k) && IsPrimitive(ts[k].kind) && ts[k].kind != String
    ensures MembersAt(ts, i, expectingComma, fields) == Err(BadKey)
  {
  }

  /** The `parseObject` loop on a string key without a colon after it. */
  lemma {:induction false} MembersAtNoColon(ts: seq<Token>, i: nat, expectingComma: bool, fields: map<string, JValue>)
    requires expectingComma ==> CheckAt(ts, i, Comma)
    requires var k := if expectingComma then i + 1 else i;
             !AtEnd(ts, k) && ts[k].kind == String && !CheckAt(ts, k + 1, Colon)
    ensures MembersAt(ts, i, expectingComma, fields) == Err(MissingColon)
  {
  }

  /** The `parseObject` loop on a comma followed by a right brace: the brace is not a key. */
  lemma {:induction false} MembersAtTrailingComma(ts: seq<Token>, i: nat, fields: map<string, JValue>)
    requires CheckAt(ts, i, Comma) && i + 1 < |ts| && ts[i + 1].kind == RightBrace
    ensures MembersAt(ts, i, true, fields) == Err(InvalidValue)
  {
  }

  /** When the `parseObject` loop succeeds from `i` and is not on a right brace, it read a pair
    * there: the comma (once one pair has been read), a string key, a colon and a value, and it
    * went on after the value with the pair assigned. */
  lemma {:induction false} MembersAtPair(ts: seq<Token>, i: nat, expectingComma: bool, fields: map<string, JValue>)
    returns (j: nat, next: nat)
    requires MembersAt(ts, i, expectingComma, fields).Ok?
    requires AtEnd(ts, i) || ts[i].kind != RightBrace
    ensures !AtEnd(ts, i) && (expectingComma ==> CheckAt(ts, i, Comma))
    ensures j == if expectingComma then i + 1 else i
    ensures PrimitiveAt(ts, j).Ok? && PrimitiveAt(ts, j).value.0.JString? && CheckAt(ts, j + 1, Colon)
    ensures ts[j].kind == String && ValueAt(ts, j + 2).Ok? && next == ValueAt(ts, j + 2).value.1
    ensures MembersAt(ts, i, expectingComma, fields)
         == MembersAt(ts, next, true, fields[PrimitiveAt(ts, j).value.0.text := ValueAt(ts, j + 2).value.0])
  {
    j := if expectingComma then i + 1 else i;
    next := ValueAt(ts, j + 2).value.1;
  }

  /** The loop of `parseArray` from `i`, with the elements read so far: until the end or a right
    * square bracket, each element (after a comma once one has been read) is a value; the closing
    * bracket is then consumed. */
  function ElementsAt(ts: seq<Token>, i: nat, expectingComma: bool, elements: seq<JValue>)
    : (r: Result<(JValue, nat), ParseError>)
    decreases |ts| - i, 3
    ensures r.Ok? ==> i < r.value.1 <= |ts| && r.value.0.JArray?
  {
    if AtEnd(ts, i) || ts[i].kind == RightSquareBracket then
      if AtEnd(ts, i) then Err(AdvancePastEnd) else Ok((JArray(elements), i + 1))
    else if expectingComma && !CheckAt(ts, i, Comma) then Err(MissingComma(InArray))
    else
      var j := if expectingComma then i + 1 else i;
      var (value, next) :- ValueAt(ts, j);
      ElementsAt(ts, next, true, elements + [value])
  }

  /** The `parseArray` loop on a right square bracket: the array is complete. */
  lemma {:induction false} ElementsAtClose(ts: seq<Token>, i: nat, expectingComma: bool, elements: seq<JValue>)
    requires i < |ts| && ts[i].kind == RightSquareBracket
    ensures ElementsAt(ts, i, expectingComma, elements) == Ok((JArray(elements), i + 1))
  {
  }

  /** The `parseArray` loop at the end of the input: the bracket is missing. */
  lemma {:induction false} ElementsAtEnd(ts: seq<Token>, i: nat, expectingComma: bool, elements: seq<JValue>)
    requires AtEnd(ts, i)
    ensures ElementsAt(ts, i, expectingComma, elements) == Err(AdvancePastEnd)
  {
  }

  /** The `parseArray` loop expecting a comma on anything but a comma or a right square bracket. */
  lemma {:induction false} ElementsAtNoComma(ts: seq<Token>, i: nat, elements: seq<JValue>)
    requires !AtEnd(ts, i) && ts[i].kind != Comma && ts[i].kind != RightSquareBracket
    ensures ElementsAt(ts, i, true, elements) == Err(MissingComma(InArray))
  {
  }

  /** The `parseArray` loop on a comma followed by a right square bracket: the bracket is not a
    * value. */
  lemma {:induction false} ElementsAtTrailingComma(ts: seq<Token>, i: nat, elements: seq<JValue>)
    requires CheckAt(ts, i, Comma) && i + 1 < |ts| && ts[i + 1].kind == RightSquareBracket
    ensures ElementsAt(ts, i, true, elements) == Err(InvalidValue)
  {
    assert ValueAt(ts, i + 1) == PrimitiveAt(ts, i + 1);
  }

  /** One pass of the `parseArray` loop: the comma (once one element has been read) and a value
    * from `valueAt` to `next`; the loop then goes on at `next` with the element appended. */
  lemma {:induction false} ElementsAtStep(ts: seq<Token>, i: nat, expectingComma: bool, elements: seq<JValue>,
                       valueAt: nat, value: JValue, next: nat)
    requires !AtEnd(ts, i) && ts[i].kind != RightSquareBracket
    requires expectingComma ==> CheckAt(ts, i, Comma)
    requires valueAt == if expectingComma then i + 1 else i
    requires ValueAt(ts, valueAt) == Ok((value, next))
    ensures ElementsAt(ts, i, expectingComma, elements) == ElementsAt(ts, next, true, elements + [value])
  {
  }

  /** When the `parseArray` loop succeeds from `i` and is not on a right square bracket, it read
    * an element there, after a comma once one element has been read, and it went on after it with
    * the element appended. */
  lemma {:induction false} ElementsAtElement(ts: seq<Token>, i: nat, expectingComma: bool, elements: seq<JValue>)
    returns (j: nat, next: nat)
    requires ElementsAt(ts, i, expectingComma, elements).Ok?
    requires AtEnd(ts, i) || ts[i].kind != RightSquareBracket
    ensures !AtEnd(ts, i) && (expectingComma ==> CheckAt(ts, i, Comma))
    ensures j == if expectingComma then i + 1 else i
    ensures ValueAt(ts, j).Ok? && next == ValueAt(ts, j).value.1
    ensures ElementsAt(ts, i, expectingComma, elements) == ElementsAt(ts, next, true, elements + [ValueAt(ts, j).value.0])
  {
    j := if expectingComma then i + 1 else i;
    next := ValueAt(ts, j).value.1;
  }


  /** `parse` with the cursor at `i`: one value, and then the end of the input. */
  function ParseFrom(ts: seq<Token>, i: nat): (r: Result<JValue, ParseError>)
    ensures r.Ok? <==> ValueAt(ts, i).Ok? && AtEnd(ts, ValueAt(ts, i).value.1)
    ensures r.Ok? ==> r.value == ValueAt(ts, i).value.0
    ensures ValueAt(ts, i).Err? ==> r == Err(ValueAt(ts, i).error)
    ensures ValueAt(ts, i).Ok? && !AtEnd(ts, ValueAt(ts, i).value.1) ==> r == Err(TrailingData)
  {
    var (value, next) :- ValueAt(ts, i);
    if !AtEnd(ts, next) then Err(TrailingData) else Ok(value)
  }

  /** `new Parser(ts).parse()`. */
  function Parse(ts: seq<Token>): (r: Result<JValue, ParseError>)
    ensures r.Ok? <==> ValueAt(ts, 0).Ok? && AtEnd(ts, ValueAt(ts, 0).value.1)
    ensures r.Ok? ==> r.value == ValueAt(ts, 0).value.0
    ensures r.Err? ==> r.error == TrailingData || ValueAt(ts, 0).Err?
  {
    ParseFrom(ts, 0)
  }
}
