/** Tokens: the closed set of token kinds, the token record and the extraction of a token's
  * scalar value (src/lexer/Token.ts). */
module Token {
  import opened Wrappers

  /** The twelve token kinds, in the order of the source enum. */
  datatype TokenType =
    | Comma | Colon | LeftBrace | RightBrace | LeftSquareBracket | RightSquareBracket
    | String | Number | True | False | Null
    | EOF

  /** An immutable triple: the kind, the lexeme (the source slice, or "EOF") and the line. */
  datatype Token = Token(kind: TokenType, lexeme: string, line: nat)

  /** The scalar a primitive token stands for. A number is kept as its lexeme: the source's
    * `Number(lexeme)` float conversion is not modelled. */
  datatype Scalar = SString(text: string) | SNumber(lexeme: string) | SBool(b: bool) | SNull

  /** The error thrown when a structural token or EOF is asked for its value. */
  datatype ValueError = NoValue(kind: TokenType)

  /** The five kinds that carry a value. */
  predicate IsPrimitive(kind: TokenType) {
    kind.String? || kind.Number? || kind.True? || kind.False? || kind.Null?
  }

  /** JavaScript's relative index as `String.prototype.slice` reads it: a negative index counts
    * from the end, and the result is clamped to `0..len`. */
  function RelativeIndex(len: nat, k: int): (r: nat)
    ensures r <= len
    ensures 0 <= k <= len ==> r == k
    ensures -(len as int) <= k < 0 ==> r == len + k
  {
    if k < 0 then (if len + k < 0 then 0 else len + k)
    else if k > len then len
    else k
  }

  /** `s.slice(start, end)` in JavaScript: empty when the clamped start is not before the clamped end. */
  function JsSlice(s: string, start: int, end: int): (r: string)
    ensures |r| <= |s|
    ensures 0 <= start <= end <= |s| ==> r == s[start..end]
  {
    var from, to := RelativeIndex(|s|, start), RelativeIndex(|s|, end);
    if from < to then s[from..to] else ""
  }

  /** `getTokenValue`: the value of a primitive token; any other kind is an error. A String
    * token's value is its lexeme without the first and last character, escapes left as they are. */
  function GetTokenValue(token: Token): (r: Result<Scalar, ValueError>)
    ensures r.Ok? <==> IsPrimitive(token.kind)
    ensures r.Err? ==> r.error == NoValue(token.kind)
    ensures token.kind.String? ==> r.value.SString?
    ensures token.kind.String? && |token.lexeme| >= 2 ==>
              r.value.text == token.lexeme[1..|token.lexeme| - 1]
    ensures token.kind.String? && |token.lexeme| < 2 ==> r.value.text == ""
    ensures token.kind.Number? ==> r.value == SNumber(token.lexeme)
    ensures token.kind.True? ==> r.value == SBool(true)
    ensures token.kind.False? ==> r.value == SBool(false)
    ensures token.kind.Null? ==> r.value == SNull
  {
    match token.kind
    case String => Ok(SString(JsSlice(token.lexeme, 1, |token.lexeme| - 1)))
    case Number => Ok(SNumber(token.lexeme))
    case True => Ok(SBool(true))
    case False => Ok(SBool(false))
    case Null => Ok(SNull)
    case _ => Err(NoValue(token.kind))
  }

  /** The String value of a quoted lexeme is exactly what lies between the quotes. */
  lemma QuotedValue(text: string, line: nat)
    ensures GetTokenValue(Token(String, "\"" + text + "\"", line)) == Ok(SString(text))
  {
    var lexeme := "\"" + text + "\"";
    assert lexeme[1..|lexeme| - 1] == text;
  }
}
