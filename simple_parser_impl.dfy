/** The parser of src/parser/SimpleParserImpl.ts: a cursor over a token sequence that it never
  * changes, read by mutually recursive methods. Each method is proved to compute what the
  * matching function of `Grammar` says, from the cursor position it started at. */
module SimpleParserImpl {
  import opened Wrappers
  import opened Token
  import opened Grammar

  class Parser {
    /** The tokens being parsed; never changed. */
    const input: seq<Token>
    /** Current index in the input. */
    var index: nat

    ghost predicate Valid()
      reads this
    {
      index <= |input|
    }

    constructor (input: seq<Token>)
      ensures Valid()
      ensures this.input == input && index == 0
    {
      this.input := input;
      index := 0;
    }

    /** The number of tokens. */
    function Length(): (n: nat)
      reads this
      ensures n == |input|
    {
      |input|
    }

    /** Whether the cursor is past the last token or on an EOF token. */
    predicate IsAtEnd()
      reads this
      ensures IsAtEnd() <==> AtEnd(input, index)
    {
      index + 1 > Length() || Peek() == Some(EOF)
    }

    /** The kind of the token under the cursor, `None` past the end. */
    function Peek(): (k: Option<TokenType>)
      reads this
      ensures k.Some? <==> index < |input|
      ensures k.Some? ==> k.value == input[index].kind
    {
      if index < |input| then Some(input[index].kind) else None
    }

    /** The token just consumed. */
    function Previous(): (t: Token)
      reads this
      requires 0 < index <= |input|
      ensures t == input[index - 1]
    {
      input[index - 1]
    }

    /** Whether the token under the cursor has the given kind (never at the end). */
    predicate Check(kind: TokenType)
      reads this
      ensures Check(kind) <==> CheckAt(input, index, kind)
      ensures Check(kind) ==> kind != EOF
    {
      if IsAtEnd() then false else Peek() == Some(kind)
    }

    /** Consumes and returns the token under the cursor; at the end it fails instead. */
    method Advance() returns (r: Result<Token, ParseError>)
      requires Valid()
      modifies this`index
      ensures Valid()
      ensures IsAtEnd() == AtEnd(input, index)
      ensures old(IsAtEnd()) ==> r == Err(AdvancePastEnd) && index == old(index)
      ensures !old(IsAtEnd()) ==> r == Ok(input[old(index)]) && index == old(index) + 1
    {
      if IsAtEnd() {
        return Err(AdvancePastEnd);
      }
      r := Ok(input[index]);
      index := index + 1;
    }

    /** Consumes the token under the cursor when its kind is one of `kinds`. */
    method Match(kinds: seq<TokenType>) returns (matched: bool)
      requires Valid()
      modifies this`index
      ensures Valid()
      ensures matched <==> !AtEnd(input, old(index)) && input[old(index)].kind in kinds
      ensures index == old(index) + (if matched then 1 else 0)
    {
      for k := 0 to |kinds|
        invariant index == old(index)
        invariant forall m :: 0 <= m < k ==> !Check(kinds[m])
      {
        if Check(kinds[k]) {
          var _ := Advance();
          return true;
        }
      }
      return false;
    }

    /** `parsePrimitive`: a String, Number, True, False or Null token and its value. */
    method ParsePrimitive() returns (r: Result<JValue, ParseError>)
      requires Valid()
      modifies this`index
      ensures Valid() && old(index) <= index
      ensures match PrimitiveAt(input, old(index))
                case Ok(res) => r == Ok(res.0) && index == res.1
                case Err(e) => r == Err(e)
    {
      var primitive := Match([String, Number, True, False, Null]);
      if primitive {
        var value := GetTokenValue(Previous());
        return Ok(FromScalar(value.value));
      }
      return Err(InvalidValue);
    }

    /** `parseObject`: an object when a left brace is under the cursor, otherwise `parseArray`. */
    method ParseObject() returns (r: Result<JValue, ParseError>)
      requires Valid()
      modifies this`index
      decreases |input| - index, 2
      ensures Valid() && old(index) <= index
      ensures match ValueAt(input, old(index))
                case Ok(res) => r == Ok(res.0) && index == res.1
                case Err(e) => r == Err(e)
    {
      var isObject := Match([LeftBrace]);
      if !isObject {
        r := ParseArray();
        return;
      }
      var fields: map<string, JValue> := map[];
      var expectingComma := false;
      while !IsAtEnd() && Peek() != Some(RightBrace)
        invariant Valid() && old(index) < index
        invariant MembersAt(input, index, expectingComma, fields) == ValueAt(input, old(index))
        decreases |input| - index
      {
        var pair := ParsePair(expectingComma, fields);
        if pair.Err? {
          return Err(pair.error);
        }
        fields := fields[pair.value.0 := pair.value.1];
        expectingComma := true;
      }
      var close := Advance();
      if close.Err? {
        return Err(close.error);
      }
      return Ok(JObject(fields));
    }

    /** The body of the `parseObject` loop, once its test has passed: a comma once a pair has been
      * read, then a string key, a colon and a value. The loop goes on from where it leaves the
      * cursor with the pair assigned to the fields read so far. */
    method ParsePair(expectingComma: bool, ghost fields: map<string, JValue>)
      returns (r: Result<(string, JValue), ParseError>)
      requires Valid() && !AtEnd(input, index) && input[index].kind != RightBrace
      modifies this`index
      decreases |input| - index, 1
      ensures Valid() && old(index) <= index
      ensures r.Ok? ==> old(index) < index
      ensures r.Err? ==> MembersAt(input, old(index), expectingComma, fields) == Err(r.error)
      ensures r.Ok? ==> MembersAt(input, old(index), expectingComma, fields)
                        == MembersAt(input, index, true, fields[r.value.0 := r.value.1])
    {
      ghost var start := index;
      if expectingComma {
        var comma := Match([Comma]);
        if !comma {
          return Err(MissingComma(InObject));
        }
      }
      ghost var keyAt := index;
      var key := ParsePrimitive();
      if key.Err? {
        assert MembersAt(input, start, expectingComma, fields) == Err(key.error);
        return Err(key.error);
      }
      if !key.value.JString? {
        return Err(BadKey);
      }
      var colon := Match([Colon]);
      if !colon {
        return Err(MissingColon);
      }
      ghost var valueAt := index;
      var value := ParseObject();
      if value.Err? {
        return Err(value.error);
      }
      MembersAtStep(input, start, expectingComma, fields, keyAt, key.value.text, valueAt, value.value, index);
      return Ok((key.value.text, value.value));
    }

    /** `parseArray`: an array when a left square bracket is under the cursor, otherwise
      * `parsePrimitive`. */
    method ParseArray() returns (r: Result<JValue, ParseError>)
      requires Valid()
      modifies this`index
      decreases |input| - index, 1
      ensures Valid() && old(index) <= index
      ensures match ArrayAt(input, old(index))
                case Ok(res) => r == Ok(res.0) && index == res.1
                case Err(e) => r == Err(e)
    {
      var isArray := Match([LeftSquareBracket]);
      if !isArray {
        r := ParsePrimitive();
        return;
      }
      var elements: seq<JValue> := [];
      var expectingComma := false;
      while !IsAtEnd() && Peek() != Some(RightSquareBracket)
        invariant Valid() && old(index) < index
        invariant ElementsAt(input, index, expectingComma, elements) == ArrayAt(input, old(index))
        decreases |input| - index
      {
        if expectingComma {
          var comma := Match([Comma]);
          if !comma {
            return Err(MissingComma(InArray));
          }
        }
        expectingComma := true;
        var element := ParseObject();
        if element.Err? {
          return Err(element.error);
        }
        elements := elements + [element.value];
      }
      var close := Advance();
      if close.Err? {
        return Err(close.error);
      }
      return Ok(JArray(elements));
    }

    /** `parse`: one value, and then the end of the input. */
    method Parse() returns (r: Result<JValue, ParseError>)
      requires Valid()
      modifies this`index
      ensures Valid() && old(index) <= index
      ensures r == ParseFrom(input, old(index))
      ensures ValueAt(input, old(index)).Ok? ==> index == ValueAt(input, old(index)).value.1
    {
      var value := ParseObject();
      if value.Err? {
        return Err(value.error);
      }
      if !IsAtEnd() {
        return Err(TrailingData);
      }
      return Ok(value.value);
    }
  }
}
