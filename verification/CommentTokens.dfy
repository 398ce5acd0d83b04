/** Lexing a text whose comments may leave tokens. */
module CommentTokens {
  import opened Tokens
  import opened Lexer
  import opened Merging
  import opened Rendering

  // ---- Whole lines before other text ----

  predicate EndsLine(s: string) { s != [] ==> s[|s| - 1] == '\n' }

  /** Inside a string that does not end, and has no unknown escape. */
  predicate OpenString(s: string)
    decreases |s|
  {
    if s == [] then true
    else if s[0] == '"' then false
    else if s[0] == '\\' then |s| < 2 || (Unescape(s[1]) != [] && OpenString(s[2..]))
    else OpenString(s[1..])
  }

  /** The text ends inside a string or a block comment. */
  predicate LeavesOpen(s: string)
    decreases |s|
  {
    s != [] &&
    match LexStep(s)
    case Bad => (s[0] == '"' && OpenString(s[1..])) || (|s| >= 2 && s[0] == '/' && s[1] == '*')
    case Skip(rest) => LeavesOpen(rest)
    case Emit(_, rest) => LeavesOpen(rest)
  }

  /** The step does not depend on what follows these lines. */
  ghost predicate GoesOn(a: Step, b: Step, rest: string)
  {
    match a
    case Bad => b.Bad?
    case Skip(r) => EndsLine(r) && b == Skip(r + rest)
    case Emit(t, r) => EndsLine(r) && b == Emit(t, r + rest)
  }

  lemma {:induction false} RunsStop(s: string, rest: string)
    requires s != [] && EndsLine(s)
    ensures WordRun(s + rest) == WordRun(s) < |s| && DigitRun(s + rest) == DigitRun(s) < |s|
  {
    if |s| > 1 {
      assert (s + rest)[1..] == s[1..] + rest;
      RunsStop(s[1..], rest);
    }
  }

  lemma Cut(s: string, n: nat, rest: string)
    requires n <= |s| && EndsLine(s)
    ensures (s + rest)[..n] == s[..n] && (s + rest)[n..] == s[n..] + rest && EndsLine(s[n..])
  {}

  lemma {:induction false} StringGoesOn(acc: string, s: string, rest: string)
    requires EndsLine(s)
    ensures var r := StringBody(acc, s); r.Scanned? ==>
              StringBody(acc, s + rest) == Scanned(r.value, r.rest + rest) && EndsLine(r.rest)
    ensures StringBody(acc, s).NoScan? && !OpenString(s) ==> StringBody(acc, s + rest).NoScan?
    decreases |s|
  {
    if s != [] {
      Cut(s, 1, rest);
      if s[0] == '\\' {
        if |s| >= 2 {
          Cut(s, 2, rest);
          if Unescape(s[1]) != [] { StringGoesOn(acc + Unescape(s[1]), s[2..], rest); }
        }
      } else if s[0] != '"' {
        StringGoesOn(acc + [s[0]], s[1..], rest);
      }
    }
  }

  lemma {:induction false} AfterLineEnds(s: string)
    requires EndsLine(s)
    ensures EndsLine(AfterLine(s)) && (s != [] ==> '\n' in s)
  {
    if s != [] && s[0] != '\n' { AfterLineEnds(s[1..]); }
  }

  lemma {:induction false} AfterBlockEnds(s: string)
    requires EndsLine(s) && AfterBlock(s).Scanned?
    ensures EndsLine(AfterBlock(s).rest)
  {
    if s[0] != '*' || s[1] != '/' { AfterBlockEnds(s[1..]); }
  }

  lemma FractionGoesOn(whole: string, s: string, rest: string)
    requires |s| >= 2 && EndsLine(s)
    ensures GoesOn(FractionStep(whole, s), FractionStep(whole, s + rest), rest)
  {
    Cut(s, 1, rest);
    RunsStop(s[1..], rest);
    var n := 1 + DigitRun(s[1..]);
    Cut(s, n, rest);
    RunsStop(s[n..], rest);
    Cut(s[n..], SuffixLength(s[n..]), rest);
  }

  lemma NumberGoesOn(s: string, rest: string)
    requires s != [] && EndsLine(s) && (s[0] == '-' || IsDigit(s[0]))
    ensures GoesOn(NumberStep(s), NumberStep(s + rest), rest)
  {
    Cut(s, 1, rest);
    var body := if s[0] == '-' then s[1..] else s;
    assert body != [];
    RunsStop(body, rest);
    var n := DigitRun(body);
    Cut(body, n, rest);
    var point := body[n..];
    assert StartsFraction(point + rest) <==> StartsFraction(point);
    hide FractionStep, IntegerStep, DigitRun;
    if StartsFraction(point) {
      FractionGoesOn((if s[0] == '-' then "-" else "") + body[..n], point, rest);
    } else {
      IntegerGoesOn(s[0] == '-', body[..n], point, rest);
    }
  }

  lemma IntegerGoesOn(negative: bool, digits: string, point: string, rest: string)
    requires EndsLine(point)
    ensures GoesOn(IntegerStep(negative, digits, point), IntegerStep(negative, digits, point + rest), rest)
  {
    hide DecimalValue;
  }

  lemma VariableGoesOn(s: string, rest: string)
    requires s != [] && EndsLine(s) && s[0] == '$'
    ensures GoesOn(VariableStep(s), VariableStep(s + rest), rest)
  {
    Cut(s, 1, rest);
    RunsStop(s[1..], rest);
    Cut(s[1..], WordRun(s[1..]), rest);
  }

  lemma WordGoesOn(s: string, rest: string)
    requires s != [] && EndsLine(s) && StartsWord(s[0])
    ensures GoesOn(WordStep(s), WordStep(s + rest), rest)
  {
    RunsStop(s, rest);
    Cut(s, WordRun(s), rest);
  }

  lemma SlashGoesOn(s: string, rest: string)
    requires s != [] && EndsLine(s) && s[0] == '/'
    ensures GoesOn(SlashStep(s), SlashStep(s + rest), rest) || (SlashStep(s).Bad? && |s| >= 2 && s[1] == '*')
  {
    assert |s| >= 2;
    if s[1] == '*' {
      Cut(s, 2, rest);
      if AfterBlock(s[2..]).Scanned? {
        AfterBlockOf(s[2..], rest);
        AfterBlockEnds(s[2..]);
      }
    }
  }

  lemma StepGoesOn(s: string, rest: string)
    requires s != [] && EndsLine(s)
    ensures
      || GoesOn(LexStep(s), LexStep(s + rest), rest)
      || (LexStep(s).Bad? && ((s[0] == '"' && OpenString(s[1..])) || (|s| >= 2 && s[0] == '/' && s[1] == '*')))
  {
    hide NumberStep, VariableStep, WordStep, SlashStep, OpenString, StringBody, AfterLine;
    var c := s[0];
    assert (s + rest)[0] == c;
    Cut(s, 1, rest);
    if IsBlank(c) {
    } else if c == '#' {
      AfterLineEnds(s[1..]);
      AfterLineOf(s[1..], rest);
    } else if c == '/' {
      SlashGoesOn(s, rest);
    } else if StartsArrow(s) {
      Cut(s, 2, rest);
    } else if c == '-' || IsDigit(c) {
      assert |s| >= 2;
      NumberGoesOn(s, rest);
    } else if c == '"' {
      StringGoesOn([], s[1..], rest);
    } else if c == '$' {
      VariableGoesOn(s, rest);
    } else if StartsWord(c) {
      WordGoesOn(s, rest);
    }
  }

  /** Lines that leave nothing open give the same tokens whatever follows them. */
  lemma {:induction false} LinesLexed(s: string, rest: string)
    requires EndsLine(s) && !LeavesOpen(s)
    ensures Lex(s + rest) == if Lex(s).SomeTokens? then Prepend(Lex(s).tokens, Lex(rest)) else NoTokens
    decreases |s|
  {
    if s == [] {
      assert s + rest == rest;
      assert Prepend([], Lex(rest)) == Lex(rest) by { if Lex(rest).SomeTokens? { assert [] + Lex(rest).tokens == Lex(rest).tokens; } }
    } else {
      StepGoesOn(s, rest);
      match LexStep(s)
      case Bad =>
      case Skip(r) => LinesLexed(r, rest);
      case Emit(t, r) =>
        LinesLexed(r, rest);
        if Lex(r).SomeTokens? { PrependTwice([t], Lex(r).tokens, Lex(rest)); }
    }
  }

  /** Lines that are skipped are those that give no tokens. */
  lemma {:induction false} SkipsIff(s: string)
    requires EndsLine(s)
    ensures Skips(s) <==> Lex(s) == SomeTokens([])
    decreases |s|
  {
    if Skips(s) {
      GapLexed(s, "");
      assert s + "" == s;
    } else {
      StepGoesOn(s, "");
      AfterLineEnds(s);
      if LexStep(s).Skip? { SkipsIff(LexStep(s).rest); }
    }
  }

  // ---- Texts with such lines in them ----

  /** Lines that leave nothing open; if they leave tokens, one of them is neither a comma nor a parenthesis. */
  predicate Closes(s: string)
  {
    && EndsLine(s) && !LeavesOpen(s)
    && (Lex(s).SomeTokens? && Lex(s).tokens != [] ==> Weight(ListOf(Lex(s).tokens)) > 0)
  }

  /** Tokens do not merge; gaps are skipped, or they are lines that need not be. */
  predicate Loose(t: Text)
  {
    match t
    case End => true
    case T(token, rest) => Lexable(token) && Leads(token, rest) && (rest.W? ==> IsGap(rest.gap)) && Loose(rest)
    case W(gap, rest) => (IsGap(gap) || Closes(gap)) && Loose(rest)
  }

  /** Every gap is skipped. */
  predicate AllSkip(t: Text)
  {
    match t
    case End => true
    case T(_, rest) => AllSkip(rest)
    case W(gap, rest) => Skips(gap) && AllSkip(rest)
  }

  lemma LooseFollow(token: Token, rest: Text)
    requires Loose(T(token, rest))
    ensures Follows(token, Render(rest))
  {
    match rest
    case End =>
    case T(u, more) =>
      if Separate(token, u) {
        FollowedByToken(token, u, Render(more));
      } else {
        LooseFirst(more);
        FollowedByPoint(token.value, more);
      }
    case W(gap, more) => FollowedByGap(token, gap, Render(more));
  }

  lemma LooseFirst(t: Text)
    requires Loose(t)
    ensures t.T? ==> Lexable(t.token)
  {}

  lemma {:induction false} ListsJoin(a: seq<Token>, b: seq<Token>)
    ensures Weight(ListOf(a + b)) == Weight(ListOf(a)) + Weight(ListOf(b))
  {
    if a == [] {
      assert a + b == b;
    } else {
      assert (a + b)[1..] == a[1..] + b;
      ListsJoin(a[1..], b);
    }
  }

  /** Lexing finds at least the weight of the text, and more if a gap is not skipped. */
  lemma {:induction false} LooseLexed(t: Text)
    requires Loose(t)
    ensures
      var r := Lex(Render(t));
      r.SomeTokens? ==>
        && Weight(ListOf(r.tokens)) >= Weight(TokensOf(t, Nil))
        && (Weight(ListOf(r.tokens)) == Weight(TokensOf(t, Nil)) ==> AllSkip(t))
    decreases t
  {
    match t
    case End =>
    case T(token, rest) =>
      LooseLexed(rest);
      LooseFollow(token, rest);
      TokenLexed(token, Render(rest));
      TokenPrepended(token, Render(t), Render(rest));
    case W(gap, rest) =>
      LooseLexed(rest);
      if Skips(gap) {
        GapLexed(gap, Render(rest));
      } else {
        LinesLexed(gap, Render(rest));
        SkipsIff(gap);
        if Lex(Render(t)).SomeTokens? { ListsJoin(Lex(gap).tokens, Lex(Render(rest)).tokens); }
      }
  }
}
