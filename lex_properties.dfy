/** What a successful `lex` promises about its tokens, for both quote rules: the input is the
  * token lexemes in order with only whitespace around them, every token but the last has the
  * lexeme its kind calls for (so none is EOF), lines count the whitespace newlines, and the last
  * token is EOF carrying the final line. Then the behaviour the test suites pin down. */
module LexProperties {
  import opened Wrappers
  import opened Token
  import opened Lexing

  /** Only the characters the lexers skip. */
  predicate IsBlank(g: string) {
    forall k :: 0 <= k < |g| ==> IsWhitespace(g[k])
  }

  /** The number of newlines in `g`. */
  function NewlineCount(g: string): nat {
    if |g| == 0 then 0 else (if g[0] == '\n' then 1 else 0) + NewlineCount(g[1..])
  }

  /** The number of newlines in all of `gaps`. */
  function Lines(gaps: seq<string>): nat {
    if |gaps| == 0 then 0 else NewlineCount(gaps[0]) + Lines(gaps[1..])
  }

  /** The text made of `gaps[0]`, the lexeme of `ts[0]`, `gaps[1]`, …, the lexeme of the last
    * token, and the last gap. */
  function Weave(gaps: seq<string>, ts: seq<Token>): string
    requires |gaps| == |ts| + 1
    decreases |ts|
  {
    if |ts| == 0 then gaps[0] else gaps[0] + ts[0].lexeme + Weave(gaps[1..], ts[1..])
  }

  /** Token by token: blank gaps, well-formed tokens, and each token on the line reached after
    * the newlines of the gaps before it, counting from `line`. */
  predicate Layout(ts: seq<Token>, gaps: seq<string>, line: nat, rule: QuoteRule)
    requires |gaps| == |ts| + 1
    decreases |ts|
  {
    && IsBlank(gaps[0])
    && (|ts| > 0 ==>
          && WellFormedToken(ts[0], rule)
          && ts[0].line == line + NewlineCount(gaps[0])
          && Layout(ts[1..], gaps[1..], line + NewlineCount(gaps[0]), rule))
  }

  /** Adding a character in front of the first gap adds it in front of the text. */
  lemma {:induction false} WeavePrepend(c: char, gaps: seq<string>, ts: seq<Token>)
    requires |gaps| == |ts| + 1
    ensures Weave([[c] + gaps[0]] + gaps[1..], ts) == [c] + Weave(gaps, ts)
  {
    var moved := [[c] + gaps[0]] + gaps[1..];
    assert moved[0] == [c] + gaps[0];
    if |ts| > 0 {
      assert moved[1..] == gaps[1..];
    }
  }

  /** `Layout` read at one index: the gap before token `k` is blank, the token is well formed, and
    * its line is `line` plus the newlines in the gaps up to it. */
  lemma {:induction false} LayoutAt(ts: seq<Token>, gaps: seq<string>, line: nat, rule: QuoteRule, k: nat)
    requires |gaps| == |ts| + 1 && Layout(ts, gaps, line, rule) && k < |gaps|
    ensures IsBlank(gaps[k])
    ensures k < |ts| ==> WellFormedToken(ts[k], rule) && ts[k].line == line + Lines(gaps[..k + 1])
    decreases k
  {
    if k > 0 {
      LayoutAt(ts[1..], gaps[1..], line + NewlineCount(gaps[0]), rule, k - 1);
      assert gaps[..k + 1][1..] == gaps[1..][..k];
    } else {
      assert gaps[..1][1..] == [];
    }
  }

  /** A whitespace character in front of a laid-out text joins the first gap. */
  lemma BlankStepLayout(s: string, i: nat, later: seq<string>, ts: seq<Token>, line: nat, rule: QuoteRule)
    returns (gaps: seq<string>)
    requires i < |s| && IsWhitespace(s[i]) && |later| == |ts| + 1
    requires s[i + 1..] == Weave(later, ts)
    requires Layout(ts, later, line + (if s[i] == '\n' then 1 else 0), rule)
    ensures |gaps| == |later|
    ensures s[i..] == Weave(gaps, ts) && Layout(ts, gaps, line, rule)
    ensures Lines(gaps) == (if s[i] == '\n' then 1 else 0) + Lines(later)
    ensures gaps[1..] == later[1..]
  {
    var c := s[i];
    gaps := [[c] + later[0]] + later[1..];
    WeavePrepend(c, later, ts);
    assert s[i..] == [c] + s[i + 1..];
    assert ([c] + later[0])[1..] == later[0];
    assert gaps[1..] == later[1..];
    assert IsBlank(gaps[0]) by {
      forall k | 0 <= k < |gaps[0]| ensures IsWhitespace(gaps[0][k]) {
        if k > 0 { assert gaps[0][k] == later[0][k - 1]; }
      }
    }
    assert Lines(later) == NewlineCount(later[0]) + Lines(later[1..]);
    assert Lines(gaps) == NewlineCount(gaps[0]) + Lines(gaps[1..]);
  }

  /** A well-formed token spanning `s[i..next]` in front of a laid-out text is the new first
    * token, with an empty gap before it. */
  lemma TokenStepLayout(s: string, i: nat, next: nat, t: Token, later: seq<string>, ts: seq<Token>,
                        line: nat, rule: QuoteRule)
    returns (gaps: seq<string>)
    requires i < next <= |s| && t.lexeme == s[i..next] && t.line == line && WellFormedToken(t, rule)
    requires |later| == |ts| + 1 && s[next..] == Weave(later, ts) && Layout(ts, later, line, rule)
    ensures |gaps| == |ts| + 2
    ensures s[i..] == Weave(gaps, [t] + ts) && Layout([t] + ts, gaps, line, rule)
    ensures Lines(gaps) == Lines(later)
    ensures gaps == [""] + later
  {
    gaps := [""] + later;
    assert ([t] + ts)[1..] == ts;
    assert s[i..] == s[i..next] + s[next..];
    assert gaps[1..] == later;
    assert Lines(gaps) == NewlineCount("") + Lines(later);
  }

  /** A sequence that starts with `acc + [t]` continues with `t` right after `acc`. */
  lemma SuffixAfter(all: seq<Token>, acc: seq<Token>, t: Token)
    requires |acc| < |all| && all[..|acc| + 1] == acc + [t]
    ensures all[|acc|..] == [t] + all[|acc| + 1..]
  {
    assert all[|acc|] == (acc + [t])[|acc|];
  }

  /** One iteration of the scan loop: if the text after the step is laid out, so is the text from
    * `i`, whether the step read whitespace or a token. */
  lemma ScanStepLayout(s: string, i: nat, line: nat, rule: QuoteRule, step: Step,
                       acc: seq<Token>, all: seq<Token>, later: seq<string>)
    returns (gaps: seq<string>)
    requires TokenAt(s, i, line, rule) == Ok(step)
    requires |acc + OptionalToken(step.token)| <= |all|
    requires all[..|acc + OptionalToken(step.token)|] == acc + OptionalToken(step.token)
    requires |later| == |all| - |acc + OptionalToken(step.token)| + 1
    requires s[step.next..] == Weave(later, all[|acc + OptionalToken(step.token)|..])
    requires Layout(all[|acc + OptionalToken(step.token)|..], later, step.line, rule)
    ensures |gaps| == |all| - |acc| + 1
    ensures s[i..] == Weave(gaps, all[|acc|..]) && Layout(all[|acc|..], gaps, line, rule)
    ensures step.line + Lines(later) == line + Lines(gaps)
    ensures step.token.None? ==> gaps[1..] == later[1..]
    ensures step.token.Some? ==> gaps == [""] + later
  {
    if step.token.None? {
      assert acc + OptionalToken(step.token) == acc;
      gaps := ScanBlankLayout(s, i, line, rule, step, acc, all, later);
    } else {
      assert acc + OptionalToken(step.token) == acc + [step.token.value];
      gaps := ScanTokenLayout(s, i, line, rule, step, acc, all, later);
    }
  }

  /** A whitespace step of the scan loop joins the first gap. */
  lemma ScanBlankLayout(s: string, i: nat, line: nat, rule: QuoteRule, step: Step,
                        acc: seq<Token>, all: seq<Token>, later: seq<string>)
    returns (gaps: seq<string>)
    requires TokenAt(s, i, line, rule) == Ok(step) && step.token.None?
    requires |acc| <= |all| && all[..|acc|] == acc
    requires |later| == |all| - |acc| + 1
    requires s[step.next..] == Weave(later, all[|acc|..])
    requires Layout(all[|acc|..], later, step.line, rule)
    ensures |gaps| == |all| - |acc| + 1
    ensures s[i..] == Weave(gaps, all[|acc|..]) && Layout(all[|acc|..], gaps, line, rule)
    ensures step.line + Lines(later) == line + Lines(gaps)
    ensures gaps[1..] == later[1..]
  {
    gaps := BlankStepLayout(s, i, later, all[|acc|..], line, rule);
  }

  /** A token step of the scan loop puts the token in front, with an empty gap before it. */
  lemma ScanTokenLayout(s: string, i: nat, line: nat, rule: QuoteRule, step: Step,
                        acc: seq<Token>, all: seq<Token>, later: seq<string>)
    returns (gaps: seq<string>)
    requires TokenAt(s, i, line, rule) == Ok(step) && step.token.Some?
    requires |acc| + 1 <= |all| && all[..|acc| + 1] == acc + [step.token.value]
    requires |later| == |all| - |acc| - 1 + 1
    requires s[step.next..] == Weave(later, all[|acc| + 1..])
    requires Layout(all[|acc| + 1..], later, step.line, rule)
    ensures |gaps| == |all| - |acc| + 1
    ensures s[i..] == Weave(gaps, all[|acc|..]) && Layout(all[|acc|..], gaps, line, rule)
    ensures step.line + Lines(later) == line + Lines(gaps)
    ensures gaps == [""] + later
  {
    var t := step.token.value;
    SuffixAfter(all, acc, t);
    TokenAtWellFormed(s, i, line, rule);
    gaps := TokenStepLayout(s, i, step.next, t, later, all[|acc| + 1..], line, rule);
  }

  /** One iteration of the scan loop keeps the tokens delimited: a whitespace step only changes
    * the first gap, and a number token is followed by neither a digit nor a dot. */
  lemma ScanStepDelimited(s: string, i: nat, line: nat, rule: QuoteRule, step: Step,
                          acc: seq<Token>, all: seq<Token>, later: seq<string>, gaps: seq<string>)
    requires TokenAt(s, i, line, rule) == Ok(step)
    requires |acc + OptionalToken(step.token)| <= |all|
    requires all[..|acc + OptionalToken(step.token)|] == acc + OptionalToken(step.token)
    requires |later| == |all| - |acc + OptionalToken(step.token)| + 1
    requires s[step.next..] == Weave(later, all[|acc + OptionalToken(step.token)|..])
    requires Layout(all[|acc + OptionalToken(step.token)|..], later, step.line, rule)
    requires Delimited(all[|acc + OptionalToken(step.token)|..], later)
    requires |gaps| == |all| - |acc| + 1
    requires step.token.None? ==> gaps[1..] == later[1..]
    requires step.token.Some? ==> gaps == [""] + later
    ensures Delimited(all[|acc|..], gaps)
  {
    if step.token.None? {
      assert acc + OptionalToken(step.token) == acc;
      BlankStepDelimited(all[|acc|..], later, gaps);
    } else {
      var t := step.token.value;
      assert acc + OptionalToken(step.token) == acc + [t];
      SuffixAfter(all, acc, t);
      if t.kind == Number {
        NumberTokenEnd(s, i, line, rule);
      }
      TokenStepDelimited(s, i, step.next, t, later, all[|acc| + 1..], line, rule);
    }
  }

  /** Whitespace joining the first gap leaves the tokens delimited: only the gaps after tokens
    * matter. */
  lemma BlankStepDelimited(ts: seq<Token>, later: seq<string>, gaps: seq<string>)
    requires |later| == |ts| + 1 && |gaps| == |later| && gaps[1..] == later[1..]
    requires Delimited(ts, later)
    ensures Delimited(ts, gaps)
  {
    if |ts| > 0 {
      assert gaps[1] == gaps[1..][0];
    }
  }

  /** A token in front of delimited tokens with no gap before them keeps them delimited when, if it
    * is a number, no digit or dot follows it and it does not end the input with a dot. */
  lemma TokenStepDelimited(s: string, i: nat, next: nat, t: Token, later: seq<string>, ts: seq<Token>,
                           line: nat, rule: QuoteRule)
    requires i < next <= |s| && t.lexeme == s[i..next]
    requires |later| == |ts| + 1 && s[next..] == Weave(later, ts) && Layout(ts, later, line, rule)
    requires t.kind == Number ==>
               && (next < |s| ==> !IsNumberChar(s[next]))
               && (next == |s| ==> s[next - 1] != '.')
    requires Delimited(ts, later)
    ensures Delimited([t] + ts, [""] + later)
  {
    assert ([t] + ts)[1..] == ts;
    assert ([""] + later)[1..] == later;
    if t.kind == Number && |later[0]| == 0 {
      if |ts| > 0 {
        assert WellFormedToken(ts[0], rule);
        assert |ts[0].lexeme| > 0;
        assert s[next..] == later[0] + ts[0].lexeme + Weave(later[1..], ts[1..]);
        assert s[next] == ts[0].lexeme[0];
      } else {
        assert s[next..] == later[0];
        assert t.lexeme[|t.lexeme| - 1] == s[next - 1];
      }
    }
  }

  /** The scan loop of `lex` from position `i`: the rest of the input is the new tokens woven with
    * blank gaps, the tokens are laid out from `line`, and the final line adds every gap's
    * newlines. */
  lemma {:induction false} ScanAllLayout(s: string, i: nat, line: nat, acc: seq<Token>, rule: QuoteRule)
    returns (gaps: seq<string>)
    requires i <= |s| && ScanAll(s, i, line, acc, rule).Ok?
    ensures var all := ScanAll(s, i, line, acc, rule).value.0;
            && |gaps| == |all| - |acc| + 1
            && s[i..] == Weave(gaps, all[|acc|..])
            && Layout(all[|acc|..], gaps, line, rule)
            && ScanAll(s, i, line, acc, rule).value.1 == line + Lines(gaps)
            && Delimited(all[|acc|..], gaps)
    decreases |s| - i
  {
    if i + 1 > |s| {
      assert ScanAll(s, i, line, acc, rule).value.0[|acc|..] == [];
      gaps := [""];
      assert Lines(gaps) == NewlineCount("") + Lines([]);
    } else {
      var step := TokenAt(s, i, line, rule).value;
      var acc' := acc + OptionalToken(step.token);
      assert ScanAll(s, step.next, step.line, acc', rule) == ScanAll(s, i, line, acc, rule);
      var later := ScanAllLayout(s, step.next, step.line, acc', rule);
      var all := ScanAll(s, i, line, acc, rule).value.0;
      gaps := ScanStepLayout(s, i, line, rule, step, acc, all, later);
      ScanStepDelimited(s, i, line, rule, step, acc, all, later, gaps);
    }
  }

  /** Every gap of a laid-out text is blank, and every token in it is well formed, is not EOF
    * and carries `line` plus the newlines of the gaps before it. */
  lemma LayoutAll(ts: seq<Token>, gaps: seq<string>, line: nat, rule: QuoteRule)
    requires |gaps| == |ts| + 1 && Layout(ts, gaps, line, rule)
    ensures forall k :: 0 <= k < |gaps| ==> IsBlank(gaps[k])
    ensures forall k :: 0 <= k < |ts| ==>
              && WellFormedToken(ts[k], rule) && ts[k].kind != EOF
              && ts[k].line == line + Lines(gaps[..k + 1])
  {
    forall k | 0 <= k < |gaps|
      ensures IsBlank(gaps[k])
      ensures k < |ts| ==> WellFormedToken(ts[k], rule) && ts[k].line == line + Lines(gaps[..k + 1])
    {
      LayoutAt(ts, gaps, line, rule, k);
    }
  }

  /** `new Lexer(s).lex()`, when it succeeds, returns the tokens of `s` followed by one EOF: `s` is
    * their lexemes in order with only whitespace in the gaps between them, none of them is EOF
    * (each has the lexeme its kind calls for), each carries 1 plus the newlines of the gaps before
    * it, the final EOF has lexeme "EOF" and 1 plus all the gaps' newlines, and no number runs into
    * a digit or a dot. With `TokenizeWoven`, an if-and-only-if. */
  lemma TokenizeLayout(s: string, rule: QuoteRule) returns (gaps: seq<string>)
    requires Tokenize(s, rule).Ok?
    ensures var ts := Tokenize(s, rule).value;
            && |gaps| == |ts|
            && s == Weave(gaps, ts[..|ts| - 1])
            && (forall k :: 0 <= k < |gaps| ==> IsBlank(gaps[k]))
            && (forall k :: 0 <= k < |ts| - 1 ==>
                  && WellFormedToken(ts[k], rule) && ts[k].kind != EOF
                  && ts[k].line == 1 + Lines(gaps[..k + 1]))
            && ts[|ts| - 1] == Token(EOF, "EOF", 1 + Lines(gaps))
            && Layout(ts[..|ts| - 1], gaps, 1, rule) && Delimited(ts[..|ts| - 1], gaps)
  {
    var scanned := ScanAll(s, 0, 1, [], rule).value;
    var all := scanned.0;
    gaps := ScanAllLayout(s, 0, 1, [], rule);
    assert all[0..] == all;
    LayoutAll(all, gaps, 1, rule);
    var ts := Tokenize(s, rule).value;
    assert ts == all + [Token(EOF, "EOF", scanned.1)];
    assert ts[..|ts| - 1] == all;
  }

  /** A whitespace character yields no token and advances the line if it is a newline. */
  lemma SkipChar(s: string, i: nat, line: nat, acc: seq<Token>, rule: QuoteRule)
    requires i < |s| && IsWhitespace(s[i])
    ensures ScanAll(s, i, line, acc, rule)
            == ScanAll(s, i + 1, line + (if s[i] == '\n' then 1 else 0), acc, rule)
  {
    assert acc + [] == acc;
  }

  /** A run of whitespace yields no token and advances the line once per newline in it. */
  lemma {:induction false} SkipBlank(s: string, i: nat, j: nat, line: nat, after: nat, acc: seq<Token>,
                                     rule: QuoteRule)
    requires i <= j <= |s| && IsBlank(s[i..j]) && after == line + NewlineCount(s[i..j])
    ensures ScanAll(s, i, line, acc, rule) == ScanAll(s, j, after, acc, rule)
    decreases j - i
  {
    if i < j {
      var next := line + (if s[i] == '\n' then 1 else 0);
      BlankHead(s, i, j);
      SkipChar(s, i, line, acc, rule);
      SkipBlank(s, i + 1, j, next, after, acc, rule);
    }
  }

  /** The first character of a non-empty run of whitespace, and the rest of the run. */
  lemma BlankHead(s: string, i: nat, j: nat)
    requires i < j <= |s| && IsBlank(s[i..j])
    ensures IsWhitespace(s[i]) && IsBlank(s[i + 1..j])
    ensures NewlineCount(s[i..j]) == (if s[i] == '\n' then 1 else 0) + NewlineCount(s[i + 1..j])
  {
    assert s[i..j][0] == s[i] && s[i..j][1..] == s[i + 1..j];
    var rest := s[i + 1..j];
    forall k | 0 <= k < |rest|
      ensures IsWhitespace(rest[k])
    {
      assert rest[k] == s[i..j][k + 1];
    }
  }

  /** A token found at `i` is appended and the scan goes on after it. */
  lemma TakeToken(s: string, i: nat, line: nat, acc: seq<Token>, rule: QuoteRule, t: Token, next: nat)
    requires TokenAt(s, i, line, rule) == Ok(Step(Some(t), next, line))
    ensures ScanAll(s, i, line, acc, rule) == ScanAll(s, next, line, acc + [t], rule)
  {
  }

  /** An error at a character of the input ends the scan with that error. */
  lemma FailToken(s: string, i: nat, line: nat, acc: seq<Token>, rule: QuoteRule, e: LexError)
    requires i < |s| && TokenAt(s, i, line, rule) == Err(e)
    ensures ScanAll(s, i, line, acc, rule) == Err(e)
  {
    assert i + 1 <= |s|;
  }

  /** No number token runs into what follows it: the next character, if any, is neither a digit
    * nor a dot, and a number that ends the text does not end in a dot. */
  predicate Delimited(ts: seq<Token>, gaps: seq<string>)
    requires |gaps| == |ts| + 1
    decreases |ts|
  {
    |ts| > 0 ==>
      && (ts[0].kind == Number ==>
            || |gaps[1]| > 0
            || (|ts| > 1 && |ts[1].lexeme| > 0 && !IsNumberChar(ts[1].lexeme[0]))
            || (|ts| == 1 && |ts[0].lexeme| > 0 && ts[0].lexeme[|ts[0].lexeme| - 1] != '.'))
      && Delimited(ts[1..], gaps[1..])
  }

  /** A well-formed string token written out at `j` is what `lexString` reads there. */
  lemma StringLexemeAt(s: string, j: nat, next: nat, t: Token, rule: QuoteRule)
    requires t.kind == String && WellFormedToken(t, rule)
    requires next == j + |t.lexeme| && next <= |s| && s[j..next] == t.lexeme
    ensures TokenAt(s, j, t.line, rule) == Ok(Step(Some(t), next, t.line))
  {
    var n := |t.lexeme|;
    assert s[j] == t.lexeme[0];
    ClosesStringInLexeme(s, j, next, rule);
    forall k | j < k < next - 1
      ensures !ClosesString(s, k, rule)
    {
      assert !ClosesString(t.lexeme, k - j, rule);
    }
    assert ClosesString(t.lexeme, n - 1, rule);
    StringTokenSpan(s, j, next - 1, t.line, rule);
  }

  /** A well-formed number token written out at `j` and not followed by a digit or a dot (or
    * ending the text without a final dot) is what `lexNumber` reads there. */
  lemma NumberLexemeAt(s: string, j: nat, next: nat, t: Token, rule: QuoteRule)
    requires t.kind == Number && WellFormedToken(t, rule)
    requires next == j + |t.lexeme| && next <= |s| && s[j..next] == t.lexeme
    requires next < |s| ==> !IsNumberChar(s[next])
    requires next == |s| ==> t.lexeme[|t.lexeme| - 1] != '.'
    ensures TokenAt(s, j, t.line, rule) == Ok(Step(Some(t), next, t.line))
  {
    assert s[j] == t.lexeme[0];
    forall k | j < k < next
      ensures IsNumberChar(s[k])
    {
      assert s[k] == t.lexeme[k - j];
    }
    if next == |s| {
      assert s[next - 1] == t.lexeme[|t.lexeme| - 1];
    }
    NumberTokenSpan(s, j, next, t.line, rule);
  }

  /** `true`, `false` or `null` written out at `j` is what `lexToken` reads there. */
  lemma WordLexemeAt(s: string, j: nat, next: nat, t: Token, rule: QuoteRule)
    requires (t.kind == True || t.kind == False || t.kind == Null) && WellFormedToken(t, rule)
    requires next == j + |t.lexeme| && next <= |s| && s[j..next] == t.lexeme
    ensures TokenAt(s, j, t.line, rule) == Ok(Step(Some(t), next, t.line))
  {
    assert s[j] == t.lexeme[0];
    assert s[j + 1..next] == t.lexeme[1..];
  }

  /** A well-formed token written out at `j`, and not run into a digit or dot if it is a number,
    * is exactly what `lexToken` reads there. */
  lemma TokenAtLexeme(s: string, j: nat, next: nat, t: Token, rule: QuoteRule)
    requires WellFormedToken(t, rule) && next == j + |t.lexeme| && next <= |s| && s[j..next] == t.lexeme
    requires t.kind == Number && next < |s| ==> !IsNumberChar(s[next])
    requires t.kind == Number && next == |s| ==> t.lexeme[|t.lexeme| - 1] != '.'
    ensures TokenAt(s, j, t.line, rule) == Ok(Step(Some(t), next, t.line))
  {
    match t.kind
    case String => StringLexemeAt(s, j, next, t, rule);
    case Number => NumberLexemeAt(s, j, next, t, rule);
    case True => WordLexemeAt(s, j, next, t, rule);
    case False => WordLexemeAt(s, j, next, t, rule);
    case Null => WordLexemeAt(s, j, next, t, rule);
    case EOF => assert false;
    case _ => assert s[j] == t.lexeme[0];
  }

  /** Reading a woven text from `i`: the first gap runs to `j`, the first token's lexeme to
    * `next`, and the rest of the weave follows; the token sits where the lexer expects it. All the
    * sequence and line arithmetic of one step of `ScanWoven`, kept apart from the scan itself. */
  lemma WovenHead(s: string, i: nat, j: nat, next: nat, line: nat, acc: seq<Token>, gaps: seq<string>,
                  ts: seq<Token>, rule: QuoteRule)
    requires |gaps| == |ts| + 1 && |ts| > 0 && i <= |s| && s[i..] == Weave(gaps, ts)
    requires Layout(ts, gaps, line, rule) && Delimited(ts, gaps)
    requires j == i + |gaps[0]| && next == j + |ts[0].lexeme|
    ensures i <= j && next == j + |ts[0].lexeme| && next <= |s|
    ensures IsBlank(s[i..j]) && s[j..next] == ts[0].lexeme
    ensures WellFormedToken(ts[0], rule) && ts[0].line == line + NewlineCount(s[i..j])
    ensures ts[0].kind == Number && next < |s| ==> !IsNumberChar(s[next])
    ensures ts[0].kind == Number && next == |s| ==> ts[0].lexeme[|ts[0].lexeme| - 1] != '.'
    ensures |gaps[1..]| == |ts[1..]| + 1 && s[next..] == Weave(gaps[1..], ts[1..])
    ensures Layout(ts[1..], gaps[1..], ts[0].line, rule) && Delimited(ts[1..], gaps[1..])
    ensures acc + [ts[0]] + ts[1..] == acc + ts
    ensures ts[0].line + Lines(gaps[1..]) == line + Lines(gaps)
  {
    var t := ts[0];
    var n := |t.lexeme|;
    var rest := Weave(gaps[1..], ts[1..]);
    assert s[i..] == gaps[0] + t.lexeme + rest;
    assert s[i..][..|gaps[0]|] == gaps[0];
    assert s[i..j] == gaps[0];
    assert s[j..] == t.lexeme + rest;
    assert s[j..][..n] == t.lexeme;
    assert s[next..] == s[j..][n..];
    if t.kind == Number {
      DelimitedAfter(s, next, t, gaps[1..], ts[1..]);
    }
  }

  /** A woven text with no tokens is its one gap. */
  lemma WovenEnd(s: string, i: nat, line: nat, acc: seq<Token>, gaps: seq<string>, ts: seq<Token>,
                 rule: QuoteRule)
    requires |gaps| == |ts| + 1 && |ts| == 0 && i <= |s| && s[i..] == Weave(gaps, ts)
    requires Layout(ts, gaps, line, rule)
    ensures s[i..] == gaps[0] && IsBlank(gaps[0])
    ensures acc + ts == acc && line + Lines(gaps) == line + NewlineCount(gaps[0])
  {
    assert Lines(gaps) == NewlineCount(gaps[0]) + Lines(gaps[1..]);
  }

  /** What follows a number token in a delimited weave is neither a digit nor a dot, and a number
    * that ends the text does not end in a dot. */
  lemma DelimitedAfter(s: string, k: nat, t: Token, gaps: seq<string>, ts: seq<Token>)
    requires |gaps| == |ts| + 1 && k <= |s| && s[k..] == Weave(gaps, ts) && IsBlank(gaps[0])
    requires |t.lexeme| > 0
    requires || |gaps[0]| > 0
             || (|ts| > 0 && |ts[0].lexeme| > 0 && !IsNumberChar(ts[0].lexeme[0]))
             || (|ts| == 0 && t.lexeme[|t.lexeme| - 1] != '.')
    ensures k < |s| ==> !IsNumberChar(s[k])
    ensures k == |s| ==> t.lexeme[|t.lexeme| - 1] != '.'
  {
    if |ts| > 0 {
      assert Weave(gaps, ts) == gaps[0] + (ts[0].lexeme + Weave(gaps[1..], ts[1..]));
    }
    if |gaps[0]| > 0 {
      assert s[k] == gaps[0][0];
    }
  }

  /** A delimited well-formed token from `j` to `next` is appended by the scan, which goes on at
    * `next`. */
  lemma TakeLexeme(s: string, j: nat, next: nat, acc: seq<Token>, t: Token, rule: QuoteRule)
    requires WellFormedToken(t, rule) && next == j + |t.lexeme| && next <= |s| && s[j..next] == t.lexeme
    requires t.kind == Number && next < |s| ==> !IsNumberChar(s[next])
    requires t.kind == Number && next == |s| ==> t.lexeme[|t.lexeme| - 1] != '.'
    ensures ScanAll(s, j, t.line, acc, rule) == ScanAll(s, next, t.line, acc + [t], rule)
  {
    TokenAtLexeme(s, j, next, t, rule);
    TakeToken(s, j, t.line, acc, rule, t, next);
  }

  /** Whitespace from `i` to `j` and then a delimited well-formed token ending at `next`: the scan
    * skips the whitespace, counting its newlines, and appends the token. */
  lemma WovenStep(s: string, i: nat, j: nat, next: nat, line: nat, acc: seq<Token>, t: Token, rule: QuoteRule)
    requires i <= j && next == j + |t.lexeme| && next <= |s|
    requires IsBlank(s[i..j]) && s[j..next] == t.lexeme
    requires WellFormedToken(t, rule) && t.line == line + NewlineCount(s[i..j])
    requires t.kind == Number && next < |s| ==> !IsNumberChar(s[next])
    requires t.kind == Number && next == |s| ==> t.lexeme[|t.lexeme| - 1] != '.'
    ensures ScanAll(s, i, line, acc, rule) == ScanAll(s, next, t.line, acc + [t], rule)
  {
    SkipBlank(s, i, j, line, t.line, acc, rule);
    TakeLexeme(s, j, next, acc, t, rule);
  }

  /** A text that is one blank gap scans to no tokens, adding the gap's newlines. */
  lemma WovenNil(s: string, i: nat, line: nat, acc: seq<Token>, gap: string, rule: QuoteRule)
    requires i <= |s| && s[i..] == gap && IsBlank(gap)
    ensures ScanAll(s, i, line, acc, rule) == Ok((acc, line + NewlineCount(gap)))
  {
    assert s[i..|s|] == gap;
    SkipBlank(s, i, |s|, line, line + NewlineCount(gap), acc, rule);
    ScanAllEnd(s, |s|, line + NewlineCount(gap), acc, rule);
  }

  /** The scan loop over a laid-out, delimited text gathers exactly its tokens, and the final line
    * adds every gap's newlines. */
  lemma {:induction false} ScanWoven(s: string, i: nat, line: nat, acc: seq<Token>, gaps: seq<string>,
                                     ts: seq<Token>, rule: QuoteRule)
    requires |gaps| == |ts| + 1 && i <= |s| && s[i..] == Weave(gaps, ts)
    requires Layout(ts, gaps, line, rule) && Delimited(ts, gaps)
    ensures ScanAll(s, i, line, acc, rule) == Ok((acc + ts, line + Lines(gaps)))
    decreases |ts|
  {
    if |ts| == 0 {
      WovenEnd(s, i, line, acc, gaps, ts, rule);
      WovenNil(s, i, line, acc, gaps[0], rule);
    } else {
      var j := i + |gaps[0]|;
      var next := j + |ts[0].lexeme|;
      WovenHead(s, i, j, next, line, acc, gaps, ts, rule);
      ScanWoven(s, next, ts[0].line, acc + [ts[0]], gaps[1..], ts[1..], rule);
      WovenCons(s, i, j, next, line, acc, gaps, ts, rule);
    }
  }

  /** The scan of a weave is the first gap and token, then the scan of the rest. */
  lemma WovenCons(s: string, i: nat, j: nat, next: nat, line: nat, acc: seq<Token>, gaps: seq<string>,
                  ts: seq<Token>, rule: QuoteRule)
    requires |gaps| == |ts| + 1 && |ts| > 0 && i <= |s| && s[i..] == Weave(gaps, ts)
    requires Layout(ts, gaps, line, rule) && Delimited(ts, gaps)
    requires j == i + |gaps[0]| && next == j + |ts[0].lexeme|
    requires ScanAll(s, next, ts[0].line, acc + [ts[0]], rule)
             == Ok((acc + [ts[0]] + ts[1..], ts[0].line + Lines(gaps[1..])))
    ensures ScanAll(s, i, line, acc, rule) == Ok((acc + ts, line + Lines(gaps)))
  {
    WovenHead(s, i, j, next, line, acc, gaps, ts, rule);
    WovenStep(s, i, j, next, line, acc, ts[0], rule);
  }

  /** The facts about a weave that `TokenizeWoven` needs, apart from the scan. */
  lemma WovenWhole(s: string, gaps: seq<string>, ts: seq<Token>, rule: QuoteRule)
    requires |gaps| == |ts| + 1 && s == Weave(gaps, ts) && Layout(ts, gaps, 1, rule)
    ensures s[0..] == Weave(gaps, ts)
    ensures |ts| > 0 ==> ts[|ts| - 1].kind != EOF
  {
    assert s[0..] == s;
    if |ts| > 0 {
      LayoutAt(ts, gaps, 1, rule, |ts| - 1);
    }
  }

  /** A scan that gathers no EOF token ends in `lex` with one EOF appended. */
  lemma TokenizeScanned(s: string, rule: QuoteRule, ts: seq<Token>, line: nat)
    requires ScanAll(s, 0, 1, [], rule) == Ok(([] + ts, line))
    requires |ts| > 0 ==> ts[|ts| - 1].kind != EOF
    ensures Tokenize(s, rule) == Ok(ts + [Token(EOF, "EOF", line)])
  {
    assert [] + ts == ts;
  }

  /** `new Lexer(s).lex()` on a laid-out, delimited text returns exactly its tokens followed by an
    * EOF that carries 1 plus all the gaps' newlines: the converse of `TokenizeLayout`. */
  lemma TokenizeWoven(s: string, gaps: seq<string>, ts: seq<Token>, rule: QuoteRule)
    requires |gaps| == |ts| + 1 && s == Weave(gaps, ts)
    requires Layout(ts, gaps, 1, rule) && Delimited(ts, gaps)
    ensures Tokenize(s, rule) == Ok(ts + [Token(EOF, "EOF", 1 + Lines(gaps))])
  {
    WovenWhole(s, gaps, ts, rule);
    ScanWoven(s, 0, 1, [], gaps, ts, rule);
    TokenizeScanned(s, rule, ts, 1 + Lines(gaps));
  }

  /** `Layout` from facts about each index: blank gaps, well-formed tokens, the first token on
    * the starting line plus the newlines before it, and each later token on the previous token's
    * line plus the newlines of the gap between them. */
  lemma {:induction false} LayoutByIndex(ts: seq<Token>, gaps: seq<string>, line: nat, rule: QuoteRule)
    requires |gaps| == |ts| + 1
    requires forall k :: 0 <= k < |gaps| ==> IsBlank(gaps[k])
    requires forall k :: 0 <= k < |ts| ==> WellFormedToken(ts[k], rule)
    requires |ts| > 0 ==> ts[0].line == line + NewlineCount(gaps[0])
    requires forall k :: 0 <= k < |ts| - 1 ==> ts[k + 1].line == ts[k].line + NewlineCount(gaps[k + 1])
    ensures Layout(ts, gaps, line, rule)
    decreases |ts|
  {
    assert IsBlank(gaps[0]);
    if |ts| > 0 {
      var ts', gaps' := ts[1..], gaps[1..];
      forall k | 0 <= k < |ts'| - 1
        ensures ts'[k + 1].line == ts'[k].line + NewlineCount(gaps'[k + 1])
      {
        assert ts'[k] == ts[k + 1] && ts'[k + 1] == ts[k + 2] && gaps'[k + 1] == gaps[k + 2];
      }
      forall k | 0 <= k < |gaps'|
        ensures IsBlank(gaps'[k])
      {
        assert gaps'[k] == gaps[k + 1];
      }
      forall k | 0 <= k < |ts'|
        ensures WellFormedToken(ts'[k], rule)
      {
        assert ts'[k] == ts[k + 1];
      }
      if |ts'| > 0 {
        assert ts'[0] == ts[1] && gaps'[0] == gaps[1];
      }
      LayoutByIndex(ts', gaps', ts[0].line, rule);
      assert WellFormedToken(ts[0], rule);
    }
  }

  /** `Delimited` from facts about each number token: a non-empty gap follows it, or a token that
    * starts with neither a digit nor a dot, or it ends the list without a final dot. */
  lemma {:induction false} DelimitedByIndex(ts: seq<Token>, gaps: seq<string>)
    requires |gaps| == |ts| + 1
    requires forall k :: 0 <= k < |ts| && ts[k].kind == Number ==>
               || |gaps[k + 1]| > 0
               || (k + 1 < |ts| && |ts[k + 1].lexeme| > 0 && !IsNumberChar(ts[k + 1].lexeme[0]))
               || (k + 1 == |ts| && |ts[k].lexeme| > 0 && ts[k].lexeme[|ts[k].lexeme| - 1] != '.')
    ensures Delimited(ts, gaps)
    decreases |ts|
  {
    if |ts| > 0 {
      var ts', gaps' := ts[1..], gaps[1..];
      forall k | 0 <= k < |ts'| && ts'[k].kind == Number
        ensures || |gaps'[k + 1]| > 0
                || (k + 1 < |ts'| && |ts'[k + 1].lexeme| > 0 && !IsNumberChar(ts'[k + 1].lexeme[0]))
                || (k + 1 == |ts'| && |ts'[k].lexeme| > 0 && ts'[k].lexeme[|ts'[k].lexeme| - 1] != '.')
      {
        assert ts'[k] == ts[k + 1] && gaps'[k + 1] == gaps[k + 2];
        if k + 1 < |ts'| {
          assert ts'[k + 1] == ts[k + 2];
        }
      }
      DelimitedByIndex(ts', gaps');
      assert ts[0].kind == Number ==>
               || |gaps[1]| > 0
               || (1 < |ts| && |ts[1].lexeme| > 0 && !IsNumberChar(ts[1].lexeme[0]))
               || (1 == |ts| && |ts[0].lexeme| > 0 && ts[0].lexeme[|ts[0].lexeme| - 1] != '.');
    }
  }

  /** The line after a laid-out weave is the last token's line plus the newlines after it. */
  lemma {:induction false} LinesAfterLast(ts: seq<Token>, gaps: seq<string>, line: nat, rule: QuoteRule)
    requires |gaps| == |ts| + 1 && Layout(ts, gaps, line, rule)
    ensures line + Lines(gaps) == (if |ts| == 0 then line else ts[|ts| - 1].line) + NewlineCount(gaps[|ts|])
    decreases |ts|
  {
    if |ts| == 0 {
      assert Lines(gaps) == NewlineCount(gaps[0]) + Lines(gaps[1..]);
    } else {
      LinesAfterLast(ts[1..], gaps[1..], ts[0].line, rule);
      assert Lines(gaps) == NewlineCount(gaps[0]) + Lines(gaps[1..]);
    }
  }

  /** A well-formed token written out alone lexes back to itself on line 1, then EOF; a number
    * lexeme ending in a dot is left out, since at the end of input it is an error. */
  lemma RelexWellFormed(t: Token, rule: QuoteRule)
    requires WellFormedToken(t, rule)
    requires t.kind == Number ==> t.lexeme[|t.lexeme| - 1] != '.'
    ensures Tokenize(t.lexeme, rule) == Ok([Token(t.kind, t.lexeme, 1), Token(EOF, "EOF", 1)])
  {
    var alone, gaps := Token(t.kind, t.lexeme, 1), ["", ""];
    AloneLaidOut(t, rule);
    TokenizeWoven(t.lexeme, gaps, [alone], rule);
    assert [alone] + [Token(EOF, "EOF", 1 + Lines(gaps))] == [alone, Token(EOF, "EOF", 1)];
  }

  /** A token written out alone, with nothing around it, on line 1. */
  lemma AloneLaidOut(t: Token, rule: QuoteRule)
    requires WellFormedToken(t, rule)
    requires t.kind == Number ==> t.lexeme[|t.lexeme| - 1] != '.'
    ensures var alone, gaps := Token(t.kind, t.lexeme, 1), ["", ""];
            && Weave(gaps, [alone]) == t.lexeme && Lines(gaps) == 0
            && Layout([alone], gaps, 1, rule) && Delimited([alone], gaps)
  {
    var alone := Token(t.kind, t.lexeme, 1);
    var gaps: seq<string> := ["", ""];
    assert Weave(gaps[1..], []) == "";
    assert WellFormedToken(alone, rule);
    assert Layout([], gaps[1..], 1, rule);
    assert Lines(gaps[1..]) == NewlineCount("") + Lines([]);
  }

  /** Every token of a successful `lex` but the final EOF, written out alone, lexes back to the
    * same kind and lexeme (on line 1), except a number lexeme ending in a dot. */
  lemma RelexToken(s: string, rule: QuoteRule, k: nat)
    requires Tokenize(s, rule).Ok? && k < |Tokenize(s, rule).value| - 1
    requires var t := Tokenize(s, rule).value[k];
             t.kind == Number ==> |t.lexeme| == 0 || t.lexeme[|t.lexeme| - 1] != '.'
    ensures var t := Tokenize(s, rule).value[k];
            Tokenize(t.lexeme, rule) == Ok([Token(t.kind, t.lexeme, 1), Token(EOF, "EOF", 1)])
  {
    var ts := Tokenize(s, rule).value;
    var gaps := TokenizeLayout(s, rule);
    assert WellFormedToken(ts[k], rule);
    RelexWellFormed(ts[k], rule);
  }
}
