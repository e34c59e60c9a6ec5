/** What the parser accepts, stated as a grammar over the token sequence. A `Tree` is a concrete
  * syntax tree that keeps every token; a well-formed tree has the token kinds the parser demands
  * (a string key and a colon in each pair, a comma before every pair or element but the first,
  * closing brackets). The reference parser reads a value exactly when the tokens at the cursor
  * render a well-formed tree, and the value it returns is that tree's meaning, in which a repeated
  * key keeps the value written last. */
module ParseProperties {
  import opened Wrappers
  import opened Token
  import opened Grammar

  datatype Tree =
    | Leaf(token: Token)
    | Obj(open: Token, members: Members, close: Token)
    | Arr(open: Token, elements: Elements, close: Token)

  /** The pairs of an object, each with the comma before it when there is one. */
  datatype Members =
    | NoMembers
    | Pair(separator: Option<Token>, key: Token, colon: Token, value: Tree, rest: Members)

  /** The elements of an array, each with the comma before it when there is one. */
  datatype Elements =
    | NoElements
    | Element(separator: Option<Token>, value: Tree, rest: Elements)

  /** A comma is there exactly when `comma` says so. */
  predicate SeparatorOk(separator: Option<Token>, comma: bool) {
    separator.Some? == comma && (separator.Some? ==> separator.value.kind == Comma)
  }

  predicate WellFormed(t: Tree) {
    match t
    case Leaf(token) => IsPrimitive(token.kind)
    case Obj(open, members, close) =>
      open.kind == LeftBrace && close.kind == RightBrace && MembersWellFormed(members, false)
    case Arr(open, elements, close) =>
      open.kind == LeftSquareBracket && close.kind == RightSquareBracket && ElementsWellFormed(elements, false)
  }

  /** Every pair is well formed; the first has a comma before it when `comma` holds, the rest
    * always do. */
  predicate MembersWellFormed(ms: Members, comma: bool) {
    match ms
    case NoMembers => true
    case Pair(separator, key, colon, value, rest) =>
      && SeparatorOk(separator, comma)
      && key.kind == String && colon.kind == Colon
      && WellFormed(value)
      && MembersWellFormed(rest, true)
  }

  /** Every element is well formed; the first has a comma before it when `comma` holds, the rest
    * always do. */
  predicate ElementsWellFormed(es: Elements, comma: bool) {
    match es
    case NoElements => true
    case Element(separator, value, rest) =>
      SeparatorOk(separator, comma) && WellFormed(value) && ElementsWellFormed(rest, true)
  }

  function SeparatorTokens(separator: Option<Token>): seq<Token> {
    if separator.Some? then [separator.value] else []
  }

  /** The tokens of a tree, in order. */
  function Render(t: Tree): seq<Token> {
    match t
    case Leaf(token) => [token]
    case Obj(open, members, close) => [open] + RenderMembers(members) + [close]
    case Arr(open, elements, close) => [open] + RenderElements(elements) + [close]
  }

  function RenderMembers(ms: Members): seq<Token> {
    match ms
    case NoMembers => []
    case Pair(separator, key, colon, value, rest) =>
      SeparatorTokens(separator) + [key, colon] + Render(value) + RenderMembers(rest)
  }

  function RenderElements(es: Elements): seq<Token> {
    match es
    case NoElements => []
    case Element(separator, value, rest) => SeparatorTokens(separator) + Render(value) + RenderElements(rest)
  }

  /** The text of a key token: its lexeme without the quotes. */
  function KeyText(key: Token): string {
    match GetTokenValue(key)
    case Ok(SString(text)) => text
    case _ => ""
  }

  /** The value a tree stands for. */
  function Meaning(t: Tree): JValue {
    match t
    case Leaf(token) =>
      if GetTokenValue(token).Ok? then FromScalar(GetTokenValue(token).value) else JNull
    case Obj(_, members, _) => JObject(Fields(members, map[]))
    case Arr(_, elements, _) => JArray(Values(elements))
  }

  /** The pairs of `ms` assigned one after the other onto `fields`. */
  function Fields(ms: Members, fields: map<string, JValue>): map<string, JValue> {
    match ms
    case NoMembers => fields
    case Pair(_, key, _, value, rest) => Fields(rest, fields[KeyText(key) := Meaning(value)])
  }

  function Values(es: Elements): seq<JValue> {
    match es
    case NoElements => []
    case Element(_, value, rest) => [Meaning(value)] + Values(rest)
  }

  /** The token at position `k` of `piece`; the positions of a piece are only looked at through
    * this function, which keeps the quantifier of `At` from firing on every sequence index. */
  function Nth(piece: seq<Token>, k: nat): Token
    requires k < |piece|
  {
    piece[k]
  }

  /** `piece` lies in `ts` from position `i`. */
  predicate At(ts: seq<Token>, i: nat, piece: seq<Token>) {
    i + |piece| <= |ts| && forall k :: 0 <= k < |piece| ==> Nth(piece, k) == ts[i + k]
  }

  /** A piece lies at `i` exactly when it is the slice of `ts` that starts there. */
  lemma {:induction false} AtIsSlice(ts: seq<Token>, i: nat, piece: seq<Token>)
    requires i + |piece| <= |ts|
    ensures At(ts, i, piece) <==> ts[i..i + |piece|] == piece
  {
    if ts[i..i + |piece|] == piece {
      forall k | 0 <= k < |piece|
        ensures Nth(piece, k) == ts[i + k]
      {
        assert ts[i..i + |piece|][k] == ts[i + k];
      }
    }
    if At(ts, i, piece) {
      forall k | 0 <= k < |piece|
        ensures ts[i..i + |piece|][k] == piece[k]
      {
        assert Nth(piece, k) == ts[i + k];
      }
    }
  }

  /** Each token of a piece lying at `i` is in its place. */
  lemma {:induction false} AtIndex(ts: seq<Token>, i: nat, piece: seq<Token>, k: nat)
    requires At(ts, i, piece) && k < |piece|
    ensures ts[i + k] == piece[k]
  {
    assert Nth(piece, k) == ts[i + k];
  }

  /** Two pieces lying one after the other form their concatenation. */
  lemma {:induction false} AtJoin(ts: seq<Token>, i: nat, a: seq<Token>, b: seq<Token>)
    requires At(ts, i, a) && At(ts, i + |a|, b)
    ensures At(ts, i, a + b)
  {
    forall k | 0 <= k < |a + b|
      ensures Nth(a + b, k) == ts[i + k]
    {
      if k < |a| {
        assert Nth(a, k) == ts[i + k];
      } else {
        assert Nth(b, k - |a|) == ts[i + |a| + (k - |a|)];
      }
    }
  }

  /** A concatenation lying at `i` is its two pieces one after the other. */
  lemma {:induction false} AtSplit(ts: seq<Token>, i: nat, a: seq<Token>, b: seq<Token>)
    requires At(ts, i, a + b)
    ensures At(ts, i, a) && At(ts, i + |a|, b)
  {
    forall k | 0 <= k < |a|
      ensures Nth(a, k) == ts[i + k]
    {
      assert Nth(a + b, k) == ts[i + k];
    }
    forall k | 0 <= k < |b|
      ensures Nth(b, k) == ts[i + |a| + k]
    {
      assert Nth(a + b, |a| + k) == ts[i + (|a| + k)];
    }
  }

  /** The token at `i` lies at `i`. */
  lemma {:induction false} AtOne(ts: seq<Token>, i: nat)
    requires i < |ts|
    ensures At(ts, i, [ts[i]])
  {
    forall k | 0 <= k < 1
      ensures Nth([ts[i]], k) == ts[i + k]
    {
      assert k == 0;
    }
  }

  /** A separator that is the token at `i` lies at `i`. */
  lemma {:induction false} AtSeparator(ts: seq<Token>, i: nat, separator: Option<Token>)
    requires separator.Some? ==> i < |ts| && ts[i] == separator.value
    requires i <= |ts|
    ensures At(ts, i, SeparatorTokens(separator))
  {
    if separator.Some? {
      AtOne(ts, i);
    }
  }

  /** A String token's value is a string, and it is the key's text. */
  lemma {:induction false} StringKey(key: Token)
    requires key.kind == String
    ensures FromScalar(GetTokenValue(key).value) == JString(KeyText(key))
  {
  }

  /** The first token of a piece lying at `i` is at `i`. */
  lemma {:induction false} AtFirst(ts: seq<Token>, i: nat, piece: seq<Token>)
    requires At(ts, i, piece) && |piece| > 0
    ensures i < |ts| && ts[i] == piece[0]
  {
    AtIndex(ts, i, piece, 0);
  }

  /** A well-formed tree starts with a value or an opening bracket: never with EOF or a closing
    * bracket. */
  lemma {:induction false} FirstToken(t: Tree)
    requires WellFormed(t)
    ensures |Render(t)| > 0
    ensures Render(t)[0].kind != EOF && Render(t)[0].kind != RightSquareBracket
  {
    match t
    case Leaf(_) =>
    case Obj(open, ms, close) =>
      assert Render(t)[0] == open;
    case Arr(open, es, close) =>
      assert Render(t)[0] == open;
  }

  /** A String token at `j` is read as a string: the key's text. */
  lemma {:induction false} KeyAt(ts: seq<Token>, j: nat)
    requires j < |ts| && ts[j].kind == String
    ensures PrimitiveAt(ts, j) == Ok((JString(KeyText(ts[j])), j + 1))
  {
    StringKey(ts[j]);
  }

  /** Where the brackets and the inside of a bracketed piece lie when the piece lies at `i`. */
  lemma {:induction false} BracketsAt(ts: seq<Token>, i: nat, open: Token, inside: seq<Token>, close: Token)
    requires At(ts, i, [open] + inside + [close])
    ensures i + 1 + |inside| < |ts| && ts[i] == open && ts[i + 1 + |inside|] == close
    ensures At(ts, i + 1, inside)
  {
    AtSplit(ts, i, [open] + inside, [close]);
    AtSplit(ts, i, [open], inside);
    AtIndex(ts, i, [open], 0);
    AtIndex(ts, i + 1 + |inside|, [close], 0);
  }

  /** Completeness: the tokens of a well-formed tree at the cursor are read as that tree's meaning,
    * and the cursor ends just after them. */
  lemma {:induction false} ValueAtComplete(ts: seq<Token>, i: nat, t: Tree)
    requires WellFormed(t) && At(ts, i, Render(t))
    ensures ValueAt(ts, i) == Ok((Meaning(t), i + |Render(t)|))
    decreases t, 1
  {
    match t
    case Leaf(token) =>
      AtIndex(ts, i, Render(t), 0);
    case Obj(open, ms, close) =>
      ObjectAtComplete(ts, i, open, ms, close);
    case Arr(open, es, close) =>
      ArrayAtComplete(ts, i, open, es, close);
  }

  lemma {:induction false} ObjectAtComplete(ts: seq<Token>, i: nat, open: Token, ms: Members, close: Token)
    requires WellFormed(Obj(open, ms, close)) && At(ts, i, [open] + RenderMembers(ms) + [close])
    ensures ValueAt(ts, i) == Ok((JObject(Fields(ms, map[])), i + |RenderMembers(ms)| + 2))
    decreases Obj(open, ms, close), 0
  {
    BracketsAt(ts, i, open, RenderMembers(ms), close);
    ValueAtObject(ts, i);
    MembersAtComplete(ts, i + 1, ms, false, map[]);
  }

  lemma {:induction false} ArrayAtComplete(ts: seq<Token>, i: nat, open: Token, es: Elements, close: Token)
    requires WellFormed(Arr(open, es, close)) && At(ts, i, [open] + RenderElements(es) + [close])
    ensures ValueAt(ts, i) == Ok((JArray(Values(es)), i + |RenderElements(es)| + 2))
    decreases Arr(open, es, close), 0
  {
    BracketsAt(ts, i, open, RenderElements(es), close);
    ValueAtArray(ts, i);
    ElementsAtComplete(ts, i + 1, es, false, []);
    assert [] + Values(es) == Values(es);
  }

  /** Where the parts of a pair lie when the pair's tokens (its separator, key and colon, the
    * value's tokens `v` and the rest's tokens `r`) lie at `i`. */
  lemma {:induction false} PairAt(ts: seq<Token>, i: nat, separator: Option<Token>, key: Token, colon: Token, v: seq<Token>, r: seq<Token>)
    requires At(ts, i, SeparatorTokens(separator) + [key, colon] + v + r)
    ensures var j := i + |SeparatorTokens(separator)|;
            && j + 1 < |ts| && ts[j] == key && ts[j + 1] == colon
            && (separator.Some? ==> ts[i] == separator.value)
            && At(ts, j + 2, v) && At(ts, j + 2 + |v|, r)
  {
    var sep := SeparatorTokens(separator);
    var j := i + |sep|;
    AtSplit(ts, i, sep + [key, colon] + v, r);
    AtSplit(ts, i, sep + [key, colon], v);
    AtSplit(ts, i, sep, [key, colon]);
    AtIndex(ts, j, [key, colon], 0);
    AtIndex(ts, j, [key, colon], 1);
    if separator.Some? {
      AtIndex(ts, i, sep, 0);
    }
  }

  /** Where the parts of a well-formed pair lying at `i` are: its comma when one is due, its
    * String key at `j`, its colon, its value from `j + 2` to `next`, and the rest from `next`. */
  lemma {:induction false} PairParts(ts: seq<Token>, i: nat, comma: bool, ms: Members) returns (j: nat, next: nat)
    requires ms.Pair? && MembersWellFormed(ms, comma) && At(ts, i, RenderMembers(ms))
    ensures j == (if comma then i + 1 else i) && next == j + 2 + |Render(ms.value)|
    ensures !AtEnd(ts, i) && ts[i].kind != RightBrace && (comma ==> CheckAt(ts, i, Comma))
    ensures j + 1 < |ts| && ts[j] == ms.key && ts[j].kind == String && CheckAt(ts, j + 1, Colon)
    ensures At(ts, j + 2, Render(ms.value))
    ensures next == i + |RenderMembers(ms)| - |RenderMembers(ms.rest)| && At(ts, next, RenderMembers(ms.rest))
  {
    var sep := SeparatorTokens(ms.separator);
    j := i + |sep|;
    next := j + 2 + |Render(ms.value)|;
    assert RenderMembers(ms) == sep + [ms.key, ms.colon] + Render(ms.value) + RenderMembers(ms.rest);
    PairAt(ts, i, ms.separator, ms.key, ms.colon, Render(ms.value), RenderMembers(ms.rest));
  }

  /** One pair read by the `parseObject` loop: its tokens at `i` take the loop to the position
    * `next` after them, where the rest of the pairs lie, with the pair assigned. */
  lemma {:induction false} PairStep(ts: seq<Token>, i: nat, comma: bool, fields: map<string, JValue>, ms: Members)
    returns (next: nat)
    requires ms.Pair? && MembersWellFormed(ms, comma) && At(ts, i, RenderMembers(ms))
    ensures next == i + |RenderMembers(ms)| - |RenderMembers(ms.rest)| && At(ts, next, RenderMembers(ms.rest))
    ensures MembersAt(ts, i, comma, fields) == MembersAt(ts, next, true, fields[KeyText(ms.key) := Meaning(ms.value)])
    decreases ms, 0
  {
    var j;
    j, next := PairParts(ts, i, comma, ms);
    KeyAt(ts, j);
    ValueAtComplete(ts, j + 2, ms.value);
    MembersAtStep(ts, i, comma, fields, j, KeyText(ms.key), j + 2, Meaning(ms.value), next);
  }

  /** The `parseObject` loop reads well-formed pairs one by one: at the position `end` after them
    * it goes on with their fields assigned, expecting a comma once it has read a pair. */
  lemma {:induction false} MembersAtAfter(ts: seq<Token>, i: nat, ms: Members, comma: bool, fields: map<string, JValue>, end: nat)
    requires MembersWellFormed(ms, comma) && At(ts, i, RenderMembers(ms)) && end == i + |RenderMembers(ms)|
    ensures MembersAt(ts, i, comma, fields) == MembersAt(ts, end, comma || ms.Pair?, Fields(ms, fields))
    decreases ms, 2
  {
    if ms.Pair? {
      PairsAfter(ts, i, ms, comma, fields, end);
    } else {
      assert end == i && Fields(ms, fields) == fields;
    }
  }

  /** `MembersAtAfter` for a run that starts with a pair: the pair, then the rest. */
  lemma {:induction false} PairsAfter(ts: seq<Token>, i: nat, ms: Members, comma: bool, fields: map<string, JValue>, end: nat)
    requires ms.Pair? && MembersWellFormed(ms, comma) && At(ts, i, RenderMembers(ms)) && end == i + |RenderMembers(ms)|
    ensures MembersAt(ts, i, comma, fields) == MembersAt(ts, end, true, Fields(ms, fields))
    decreases ms, 1
  {
    var next := PairStep(ts, i, comma, fields, ms);
    MembersAtAfter(ts, next, ms.rest, true, fields[KeyText(ms.key) := Meaning(ms.value)], end);
    FieldsPair(ms, fields);
  }

  /** Assigning a run that starts with a pair is assigning that pair, then the rest. */
  lemma {:induction false} FieldsPair(ms: Members, fields: map<string, JValue>)
    requires ms.Pair?
    ensures Fields(ms, fields) == Fields(ms.rest, fields[KeyText(ms.key) := Meaning(ms.value)])
  {
  }

  /** Completeness of the `parseObject` loop: well-formed pairs followed by a right brace. */
  lemma {:induction false} MembersAtComplete(ts: seq<Token>, i: nat, ms: Members, comma: bool, fields: map<string, JValue>)
    requires MembersWellFormed(ms, comma) && At(ts, i, RenderMembers(ms))
    requires i + |RenderMembers(ms)| < |ts| && ts[i + |RenderMembers(ms)|].kind == RightBrace
    ensures MembersAt(ts, i, comma, fields) == Ok((JObject(Fields(ms, fields)), i + |RenderMembers(ms)| + 1))
    decreases ms, 3
  {
    var end := i + |RenderMembers(ms)|;
    MembersAtClose(ts, end, comma || ms.Pair?, Fields(ms, fields));
    MembersAtAfter(ts, i, ms, comma, fields, end);
  }

  /** Where the parts of an element lie when its tokens (its separator, the value's tokens `v`
    * and the rest's tokens `r`) lie at `i`. */
  lemma {:induction false} ElementAt(ts: seq<Token>, i: nat, separator: Option<Token>, v: seq<Token>, r: seq<Token>)
    requires At(ts, i, SeparatorTokens(separator) + v + r)
    ensures var j := i + |SeparatorTokens(separator)|;
            && (separator.Some? ==> i < |ts| && ts[i] == separator.value)
            && At(ts, j, v) && At(ts, j + |v|, r)
  {
    var sep := SeparatorTokens(separator);
    AtSplit(ts, i, sep + v, r);
    AtSplit(ts, i, sep, v);
    if separator.Some? {
      AtIndex(ts, i, sep, 0);
    }
  }

  /** Where the parts of a well-formed element lying at `i` are: its comma when one is due, its
    * value from `j` to `next`, and the rest from `next`. Its first token is never EOF or a right
    * square bracket. */
  lemma {:induction false} ElementParts(ts: seq<Token>, i: nat, comma: bool, es: Elements) returns (j: nat, next: nat)
    requires es.Element? && ElementsWellFormed(es, comma) && At(ts, i, RenderElements(es))
    ensures j == (if comma then i + 1 else i) && next == j + |Render(es.value)|
    ensures !AtEnd(ts, i) && ts[i].kind != RightSquareBracket && (comma ==> CheckAt(ts, i, Comma))
    ensures At(ts, j, Render(es.value))
    ensures next == i + |RenderElements(es)| - |RenderElements(es.rest)| && At(ts, next, RenderElements(es.rest))
  {
    var sep := SeparatorTokens(es.separator);
    j := i + |sep|;
    next := j + |Render(es.value)|;
    assert RenderElements(es) == sep + Render(es.value) + RenderElements(es.rest);
    ElementAt(ts, i, es.separator, Render(es.value), RenderElements(es.rest));
    ElementHead(ts, i, comma, es);
  }

  /** The first token of a well-formed element is its comma when one is due, and otherwise the
    * start of its value: never EOF or a right square bracket. */
  lemma {:induction false} ElementHead(ts: seq<Token>, i: nat, comma: bool, es: Elements)
    requires es.Element? && ElementsWellFormed(es, comma) && At(ts, i, RenderElements(es))
    ensures i < |ts| && ts[i].kind != EOF && ts[i].kind != RightSquareBracket
    ensures comma ==> ts[i].kind == Comma
  {
    var sep := SeparatorTokens(es.separator);
    assert RenderElements(es) == sep + Render(es.value) + RenderElements(es.rest);
    FirstToken(es.value);
    AtFirst(ts, i, RenderElements(es));
    if comma {
      assert RenderElements(es)[0] == es.separator.value;
    } else {
      assert RenderElements(es)[0] == Render(es.value)[0];
    }
  }

  /** Appending an element's value and then the rest's values appends all the values. */
  lemma {:induction false} ValuesStep(elements: seq<JValue>, es: Elements)
    requires es.Element?
    ensures elements + [Meaning(es.value)] + Values(es.rest) == elements + Values(es)
  {
    assert Values(es) == [Meaning(es.value)] + Values(es.rest);
  }

  /** One element read by the `parseArray` loop: its tokens at `i` take the loop to the position
    * `next` after them, where the rest of the elements lie, with the element appended. */
  lemma {:induction false} ElementStep(ts: seq<Token>, i: nat, comma: bool, elements: seq<JValue>, es: Elements)
    returns (next: nat)
    requires es.Element? && ElementsWellFormed(es, comma) && At(ts, i, RenderElements(es))
    ensures next == i + |RenderElements(es)| - |RenderElements(es.rest)| && At(ts, next, RenderElements(es.rest))
    ensures ElementsAt(ts, i, comma, elements) == ElementsAt(ts, next, true, elements + [Meaning(es.value)])
    decreases es, 0
  {
    var j;
    j, next := ElementParts(ts, i, comma, es);
    ValueAtComplete(ts, j, es.value);
    ElementsAtStep(ts, i, comma, elements, j, Meaning(es.value), next);
  }

  /** The `parseArray` loop reads well-formed elements one by one: at the position `end` after
    * them it goes on with their values appended, expecting a comma once it has read an element. */
  lemma {:induction false} ElementsAtAfter(ts: seq<Token>, i: nat, es: Elements, comma: bool, elements: seq<JValue>, end: nat)
    requires ElementsWellFormed(es, comma) && At(ts, i, RenderElements(es)) && end == i + |RenderElements(es)|
    ensures ElementsAt(ts, i, comma, elements) == ElementsAt(ts, end, comma || es.Element?, elements + Values(es))
    decreases es, 1
  {
    if es.Element? {
      var next := ElementStep(ts, i, comma, elements, es);
      ElementsAtAfter(ts, next, es.rest, true, elements + [Meaning(es.value)], end);
      ValuesStep(elements, es);
    } else {
      assert end == i && elements + [] == elements;
    }
  }

  /** Completeness of the `parseArray` loop: well-formed elements followed by a right square
    * bracket. */
  lemma {:induction false} ElementsAtComplete(ts: seq<Token>, i: nat, es: Elements, comma: bool, elements: seq<JValue>)
    requires ElementsWellFormed(es, comma) && At(ts, i, RenderElements(es))
    requires i + |RenderElements(es)| < |ts| && ts[i + |RenderElements(es)|].kind == RightSquareBracket
    ensures ElementsAt(ts, i, comma, elements) == Ok((JArray(elements + Values(es)), i + |RenderElements(es)| + 1))
    decreases es, 2
  {
    var end := i + |RenderElements(es)|;
    ElementsAtClose(ts, end, comma || es.Element?, elements + Values(es));
    ElementsAtAfter(ts, i, es, comma, elements, end);
  }

  /** After well-formed pairs the input ends: the object is never closed. */
  lemma {:induction false} MembersUnclosed(ts: seq<Token>, i: nat, ms: Members, comma: bool, fields: map<string, JValue>)
    requires MembersWellFormed(ms, comma) && At(ts, i, RenderMembers(ms))
    requires AtEnd(ts, i + |RenderMembers(ms)|)
    ensures MembersAt(ts, i, comma, fields) == Err(AdvancePastEnd)
  {
    var n := i + |RenderMembers(ms)|;
    MembersAtEnd(ts, n, comma || ms.Pair?, Fields(ms, fields));
    MembersAtAfter(ts, i, ms, comma, fields, n);
  }

  /** After a pair, anything but a comma, a right brace or the end is a missing comma. */
  lemma {:induction false} MembersMissingComma(ts: seq<Token>, i: nat, ms: Members, comma: bool, fields: map<string, JValue>)
    requires MembersWellFormed(ms, comma) && At(ts, i, RenderMembers(ms)) && (comma || ms.Pair?)
    requires var n := i + |RenderMembers(ms)|;
             !AtEnd(ts, n) && ts[n].kind != Comma && ts[n].kind != RightBrace
    ensures MembersAt(ts, i, comma, fields) == Err(MissingComma(InObject))
  {
    var n := i + |RenderMembers(ms)|;
    MembersAtNoComma(ts, n, Fields(ms, fields));
    MembersAtAfter(ts, i, ms, comma, fields, n);
  }

  /** A comma after the last pair, right before the closing brace, leaves the brace where a key
    * must be: it is not a value. */
  lemma {:induction false} MembersTrailingComma(ts: seq<Token>, i: nat, ms: Members, comma: bool, fields: map<string, JValue>)
    requires MembersWellFormed(ms, comma) && At(ts, i, RenderMembers(ms)) && (comma || ms.Pair?)
    requires var n := i + |RenderMembers(ms)|;
             CheckAt(ts, n, Comma) && n + 1 < |ts| && ts[n + 1].kind == RightBrace
    ensures MembersAt(ts, i, comma, fields) == Err(InvalidValue)
  {
    var n := i + |RenderMembers(ms)|;
    MembersAtTrailingComma(ts, n, Fields(ms, fields));
    MembersAtAfter(ts, i, ms, comma, fields, n);
  }

  /** A key that is a value but not a string, after well-formed pairs (and a comma when one is
    * due), is rejected. */
  lemma {:induction false} MembersBadKey(ts: seq<Token>, i: nat, ms: Members, comma: bool, fields: map<string, JValue>)
    requires MembersWellFormed(ms, comma) && At(ts, i, RenderMembers(ms))
    requires var n := i + |RenderMembers(ms)|;
             var k := if comma || ms.Pair? then n + 1 else n;
             && ((comma || ms.Pair?) ==> CheckAt(ts, n, Comma))
             && !AtEnd(ts, k) && IsPrimitive(ts[k].kind) && ts[k].kind != String
    ensures MembersAt(ts, i, comma, fields) == Err(BadKey)
  {
    var n := i + |RenderMembers(ms)|;
    MembersAtBadKey(ts, n, comma || ms.Pair?, Fields(ms, fields));
    MembersAtAfter(ts, i, ms, comma, fields, n);
  }

  /** A string key not followed by a colon, after well-formed pairs (and a comma when one is due),
    * is rejected. */
  lemma {:induction false} MembersMissingColon(ts: seq<Token>, i: nat, ms: Members, comma: bool, fields: map<string, JValue>)
    requires MembersWellFormed(ms, comma) && At(ts, i, RenderMembers(ms))
    requires var n := i + |RenderMembers(ms)|;
             var k := if comma || ms.Pair? then n + 1 else n;
             && ((comma || ms.Pair?) ==> CheckAt(ts, n, Comma))
             && !AtEnd(ts, k) && ts[k].kind == String && !CheckAt(ts, k + 1, Colon)
    ensures MembersAt(ts, i, comma, fields) == Err(MissingColon)
  {
    var n := i + |RenderMembers(ms)|;
    MembersAtNoColon(ts, n, comma || ms.Pair?, Fields(ms, fields));
    MembersAtAfter(ts, i, ms, comma, fields, n);
  }

  /** After well-formed elements the input ends: the array is never closed. */
  lemma {:induction false} ElementsUnclosed(ts: seq<Token>, i: nat, es: Elements, comma: bool, elements: seq<JValue>)
    requires ElementsWellFormed(es, comma) && At(ts, i, RenderElements(es))
    requires AtEnd(ts, i + |RenderElements(es)|)
    ensures ElementsAt(ts, i, comma, elements) == Err(AdvancePastEnd)
  {
    var n := i + |RenderElements(es)|;
    ElementsAtEnd(ts, n, comma || es.Element?, elements + Values(es));
    ElementsAtAfter(ts, i, es, comma, elements, n);
  }

  /** After an element, anything but a comma, a right square bracket or the end is a missing
    * comma. */
  lemma {:induction false} ElementsMissingComma(ts: seq<Token>, i: nat, es: Elements, comma: bool, elements: seq<JValue>)
    requires ElementsWellFormed(es, comma) && At(ts, i, RenderElements(es)) && (comma || es.Element?)
    requires var n := i + |RenderElements(es)|;
             !AtEnd(ts, n) && ts[n].kind != Comma && ts[n].kind != RightSquareBracket
    ensures ElementsAt(ts, i, comma, elements) == Err(MissingComma(InArray))
  {
    var n := i + |RenderElements(es)|;
    ElementsAtNoComma(ts, n, elements + Values(es));
    ElementsAtAfter(ts, i, es, comma, elements, n);
  }

  /** A comma after the last element, right before the closing bracket, leaves the bracket where a
    * value must be: it is not a value. */
  lemma {:induction false} ElementsTrailingComma(ts: seq<Token>, i: nat, es: Elements, comma: bool, elements: seq<JValue>)
    requires ElementsWellFormed(es, comma) && At(ts, i, RenderElements(es)) && (comma || es.Element?)
    requires var n := i + |RenderElements(es)|;
             CheckAt(ts, n, Comma) && n + 1 < |ts| && ts[n + 1].kind == RightSquareBracket
    ensures ElementsAt(ts, i, comma, elements) == Err(InvalidValue)
  {
    var n := i + |RenderElements(es)|;
    ElementsAtTrailingComma(ts, n, elements + Values(es));
    ElementsAtAfter(ts, i, es, comma, elements, n);
  }

  /** A bracketed piece lies at `i` when its inside lies at `i + 1`. */
  lemma {:induction false} BracketsFrom(ts: seq<Token>, i: nat, inside: seq<Token>)
    requires i + 1 + |inside| < |ts| && At(ts, i + 1, inside)
    ensures At(ts, i, [ts[i]] + inside + [ts[i + 1 + |inside|]])
  {
    AtOne(ts, i);
    AtOne(ts, i + 1 + |inside|);
    AtJoin(ts, i, [ts[i]], inside);
    AtJoin(ts, i, [ts[i]] + inside, [ts[i + 1 + |inside|]]);
  }

  /** A pair lies at `i` when its separator, key and colon are there and the value's tokens `v`
    * and the rest's tokens `r` follow them. */
  lemma {:induction false} PairFrom(ts: seq<Token>, i: nat, separator: Option<Token>, v: seq<Token>, r: seq<Token>)
    requires separator.Some? ==> i < |ts| && ts[i] == separator.value
    requires i + |SeparatorTokens(separator)| + 1 < |ts|
    requires At(ts, i + |SeparatorTokens(separator)| + 2, v)
    requires At(ts, i + |SeparatorTokens(separator)| + 2 + |v|, r)
    ensures var j := i + |SeparatorTokens(separator)|;
            At(ts, i, SeparatorTokens(separator) + [ts[j], ts[j + 1]] + v + r)
  {
    var sep := SeparatorTokens(separator);
    var j := i + |sep|;
    var head := [ts[j], ts[j + 1]];
    AtSeparator(ts, i, separator);
    AtOne(ts, j);
    AtOne(ts, j + 1);
    AtJoin(ts, j, [ts[j]], [ts[j + 1]]);
    assert [ts[j]] + [ts[j + 1]] == head;
    AtJoin(ts, i, sep, head);
    AtJoin(ts, i, sep + head, v);
    AtJoin(ts, i, sep + head + v, r);
  }

  /** An element lies at `i` when its separator is there and the value's tokens `v` and the
    * rest's tokens `r` follow it. */
  lemma {:induction false} ElementFrom(ts: seq<Token>, i: nat, separator: Option<Token>, v: seq<Token>, r: seq<Token>)
    requires separator.Some? ==> i < |ts| && ts[i] == separator.value
    requires At(ts, i + |SeparatorTokens(separator)|, v)
    requires At(ts, i + |SeparatorTokens(separator)| + |v|, r)
    ensures At(ts, i, SeparatorTokens(separator) + v + r)
  {
    var sep := SeparatorTokens(separator);
    AtSeparator(ts, i, separator);
    AtJoin(ts, i, sep, v);
    AtJoin(ts, i, sep + v, r);
  }

  /** The pairs `ms` lie at `i`, well formed, and a right brace follows them. */
  predicate MembersShape(ts: seq<Token>, i: nat, comma: bool, ms: Members) {
    && MembersWellFormed(ms, comma) && At(ts, i, RenderMembers(ms))
    && i + |RenderMembers(ms)| < |ts| && ts[i + |RenderMembers(ms)|].kind == RightBrace
  }

  /** The elements `es` lie at `i`, well formed, and a right square bracket follows them. */
  predicate ElementsShape(ts: seq<Token>, i: nat, comma: bool, es: Elements) {
    && ElementsWellFormed(es, comma) && At(ts, i, RenderElements(es))
    && i + |RenderElements(es)| < |ts| && ts[i + |RenderElements(es)|].kind == RightSquareBracket
  }

  lemma {:induction false} NoMembersShape(ts: seq<Token>, i: nat, comma: bool)
    requires i < |ts| && ts[i].kind == RightBrace
    ensures MembersShape(ts, i, comma, NoMembers)
  {
  }

  lemma {:induction false} NoElementsShape(ts: seq<Token>, i: nat, comma: bool)
    requires i < |ts| && ts[i].kind == RightSquareBracket
    ensures ElementsShape(ts, i, comma, NoElements)
  {
  }

  /** The number of tokens of a pair and the pairs after it. */
  lemma {:induction false} PairLength(ms: Members)
    requires ms.Pair?
    ensures |RenderMembers(ms)|
         == |SeparatorTokens(ms.separator)| + 2 + |Render(ms.value)| + |RenderMembers(ms.rest)|
  {
  }

  /** The number of tokens of an element and the elements after it. */
  lemma {:induction false} ElementLength(es: Elements)
    requires es.Element?
    ensures |RenderElements(es)| == |SeparatorTokens(es.separator)| + |Render(es.value)| + |RenderElements(es.rest)|
  {
  }

  /** A pair whose parts lie in turn at `i`, followed by a run of pairs closed by a right brace, is
    * such a run too. */
  lemma {:induction false} PairShape(ts: seq<Token>, i: nat, comma: bool, separator: Option<Token>, j: nat,
                                     value: Tree, rest: Members, next: nat)
    requires i < |ts| && separator == if comma then Some(ts[i]) else None
    requires comma ==> ts[i].kind == Comma
    requires j == i + |SeparatorTokens(separator)|
    requires j + 1 < |ts| && ts[j].kind == String && ts[j + 1].kind == Colon
    requires WellFormed(value) && At(ts, j + 2, Render(value))
    requires next == j + 2 + |Render(value)| && MembersShape(ts, next, true, rest)
    ensures MembersShape(ts, i, comma, Pair(separator, ts[j], ts[j + 1], value, rest))
  {
    var ms := Pair(separator, ts[j], ts[j + 1], value, rest);
    PairLength(ms);
    PairFrom(ts, i, separator, Render(value), RenderMembers(rest));
    assert RenderMembers(ms) == SeparatorTokens(separator) + [ts[j], ts[j + 1]] + Render(value) + RenderMembers(rest);
  }

  /** An element whose value lies at `i` after its separator, followed by a run of elements closed
    * by a right square bracket, is such a run too. */
  lemma {:induction false} ElementShape(ts: seq<Token>, i: nat, comma: bool, separator: Option<Token>, j: nat,
                                        value: Tree, rest: Elements, next: nat)
    requires i < |ts| && separator == if comma then Some(ts[i]) else None
    requires comma ==> ts[i].kind == Comma
    requires j == i + |SeparatorTokens(separator)|
    requires WellFormed(value) && At(ts, j, Render(value))
    requires next == j + |Render(value)| && ElementsShape(ts, next, true, rest)
    ensures ElementsShape(ts, i, comma, Element(separator, value, rest))
  {
    var es := Element(separator, value, rest);
    ElementLength(es);
    ElementFrom(ts, i, separator, Render(value), RenderElements(rest));
    assert RenderElements(es) == SeparatorTokens(separator) + Render(value) + RenderElements(rest);
  }

  /** What the reference parser reads at `i` is the rendering of a well-formed tree. */
  lemma {:induction false} ValueAtTree(ts: seq<Token>, i: nat) returns (t: Tree)
    requires ValueAt(ts, i).Ok?
    ensures WellFormed(t) && At(ts, i, Render(t))
    decreases |ts| - i, 2
  {
    if CheckAt(ts, i, LeftBrace) {
      ValueAtObject(ts, i);
      var ms := MembersAtTree(ts, i + 1, false, map[]);
      var n := i + 1 + |RenderMembers(ms)|;
      BracketsFrom(ts, i, RenderMembers(ms));
      t := Obj(ts[i], ms, ts[n]);
    } else if CheckAt(ts, i, LeftSquareBracket) {
      ValueAtArray(ts, i);
      var es := ElementsAtTree(ts, i + 1, false, []);
      var n := i + 1 + |RenderElements(es)|;
      BracketsFrom(ts, i, RenderElements(es));
      t := Arr(ts[i], es, ts[n]);
    } else {
      assert ValueAt(ts, i) == PrimitiveAt(ts, i);
      AtOne(ts, i);
      t := Leaf(ts[i]);
    }
  }

  /** What the `parseObject` loop reads from `i` is a run of well-formed pairs followed by a right
    * brace. */
  lemma {:induction false} MembersAtTree(ts: seq<Token>, i: nat, comma: bool, fields: map<string, JValue>)
    returns (ms: Members)
    requires MembersAt(ts, i, comma, fields).Ok?
    ensures MembersShape(ts, i, comma, ms)
    decreases |ts| - i, 3
  {
    if AtEnd(ts, i) || ts[i].kind == RightBrace {
      assert !AtEnd(ts, i);
      NoMembersShape(ts, i, comma);
      ms := NoMembers;
    } else {
      var j, next := MembersAtPair(ts, i, comma, fields);
      var separator := if comma then Some(ts[i]) else None;
      KeyAt(ts, j);
      var value := ValueAtTree(ts, j + 2);
      ValueAtComplete(ts, j + 2, value);
      var rest := MembersAtTree(ts, next, true, fields[KeyText(ts[j]) := Meaning(value)]);
      PairShape(ts, i, comma, separator, j, value, rest, next);
      ms := Pair(separator, ts[j], ts[j + 1], value, rest);
    }
  }

  /** What the `parseArray` loop reads from `i` is a run of well-formed elements followed by a
    * right square bracket. */
  lemma {:induction false} ElementsAtTree(ts: seq<Token>, i: nat, comma: bool, elements: seq<JValue>)
    returns (es: Elements)
    requires ElementsAt(ts, i, comma, elements).Ok?
    ensures ElementsShape(ts, i, comma, es)
    decreases |ts| - i, 3
  {
    if AtEnd(ts, i) || ts[i].kind == RightSquareBracket {
      assert !AtEnd(ts, i);
      NoElementsShape(ts, i, comma);
      es := NoElements;
    } else {
      var j, next := ElementsAtElement(ts, i, comma, elements);
      var separator := if comma then Some(ts[i]) else None;
      var value := ValueAtTree(ts, j);
      ValueAtComplete(ts, j, value);
      var rest := ElementsAtTree(ts, next, true, elements + [Meaning(value)]);
      ElementShape(ts, i, comma, separator, j, value, rest, next);
      es := Element(separator, value, rest);
    }
  }

  /** Soundness: whatever the reference parser reads at `i` is the meaning of a well-formed tree
    * whose tokens lie at `i`, and the cursor ends just after them. */
  lemma {:induction false} ValueAtSound(ts: seq<Token>, i: nat) returns (t: Tree)
    requires ValueAt(ts, i).Ok?
    ensures WellFormed(t) && At(ts, i, Render(t))
    ensures ValueAt(ts, i) == Ok((Meaning(t), i + |Render(t)|))
  {
    t := ValueAtTree(ts, i);
    ValueAtComplete(ts, i, t);
  }

  /** `parse` accepts exactly the inputs that start with a well-formed tree and have nothing but
    * the end (an EOF token, or no token) after it, and returns that tree's meaning. */
  lemma {:induction false} ParseComplete(ts: seq<Token>, t: Tree)
    requires WellFormed(t) && At(ts, 0, Render(t)) && AtEnd(ts, |Render(t)|)
    ensures Parse(ts) == Ok(Meaning(t))
  {
    ValueAtComplete(ts, 0, t);
  }

  /** A well-formed tree followed by anything but the end is trailing data. */
  lemma {:induction false} ParseTrailingData(ts: seq<Token>, t: Tree)
    requires WellFormed(t) && At(ts, 0, Render(t)) && !AtEnd(ts, |Render(t)|)
    ensures Parse(ts) == Err(TrailingData)
  {
    ValueAtComplete(ts, 0, t);
  }

  lemma {:induction false} ParseSound(ts: seq<Token>) returns (t: Tree)
    requires Parse(ts).Ok?
    ensures WellFormed(t) && At(ts, 0, Render(t)) && AtEnd(ts, |Render(t)|)
    ensures Parse(ts) == Ok(Meaning(t))
  {
    t := ValueAtSound(ts, 0);
  }

  /** The value of the pair written last for `key` among `ms`, if there is one. */
  function LastValue(ms: Members, key: string): Option<JValue> {
    match ms
    case NoMembers => None
    case Pair(_, k, _, value, rest) =>
      var later := LastValue(rest, key);
      if later.Some? then later else if KeyText(k) == key then Some(Meaning(value)) else None
  }

  /** A repeated key keeps the value written last; a key no pair writes keeps what it had. */
  lemma {:induction false} LastWriteWins(ms: Members, fields: map<string, JValue>, key: string)
    ensures LastValue(ms, key).Some? ==> key in Fields(ms, fields) && Fields(ms, fields)[key] == LastValue(ms, key).value
    ensures LastValue(ms, key).None? ==>
              && (key in Fields(ms, fields) <==> key in fields)
              && (key in fields ==> Fields(ms, fields)[key] == fields[key])
    decreases ms
  {
    match ms
    case NoMembers =>
    case Pair(_, k, _, value, rest) =>
      LastWriteWins(rest, fields[KeyText(k) := Meaning(value)], key);
  }

  /** The tokens of a well-formed tree followed by an EOF token parse to the tree's meaning. */
  lemma {:induction false} ParseRendered(t: Tree, end: Token)
    requires WellFormed(t) && end.kind == EOF
    ensures Parse(Render(t) + [end]) == Ok(Meaning(t))
  {
    var ts := Render(t) + [end];
    forall k | 0 <= k < |Render(t)|
      ensures Nth(Render(t), k) == ts[0 + k]
    {
    }
    ParseComplete(ts, t);
  }
}
