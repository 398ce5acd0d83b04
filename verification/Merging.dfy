/** What is lost when tokens of a text run into each other: src/lexer.rs:140-206, 250-263. */
module Merging {
  import opened Tokens
  import opened Lexer
  import opened Rendering

  // ---- The weight of a token list ----

  /** The tokens that a program always has as many of: commas and parentheses may be left out in some places. */
  predicate IsCounted(t: Token) { t != Comma && t != LParen && t != RParen && t != Eof }

  function Weight(ts: List): nat
  {
    if ts.Nil? then 0 else (if IsCounted(ts.head) then 1 else 0) + Weight(ts.tail)
  }

  function Size(t: Text): nat { if t.End? then 0 else 1 + Size(t.rest) }

  // ---- Tokens that a word or a number runs on into ----

  predicate IsDigits(t: Text) { t.T? && t.token.Int? && t.token.value >= 0 }

  predicate IsRun(t: Text) { IsDigits(t) || (t.T? && t.token.Ident?) }

  /** The digits at the start of a text. */
  function DigitsText(t: Text): string { if IsDigits(t) then TokenText(t.token) + DigitsText(t.rest) else "" }

  function AfterDigits(t: Text): Text { if IsDigits(t) then AfterDigits(t.rest) else t }

  /** The names and digits at the start of a text. */
  function RunText(t: Text): string { if IsRun(t) then TokenText(t.token) + RunText(t.rest) else "" }

  function AfterRun(t: Text): Text { if IsRun(t) then AfterRun(t.rest) else t }

  lemma DigitTextOf(n: int)
    requires n >= 0
    ensures TokenText(Int(n)) == DecimalText(n) && AllDigits(DecimalText(n)) && AllWordChars(DecimalText(n))
            && DecimalText(n) != []
  {}

  lemma {:induction false} DigitsRendered(t: Text)
    requires Laid(false, t)
    ensures Render(t) == DigitsText(t) + Render(AfterDigits(t)) && AllDigits(DigitsText(t))
    ensures Laid(false, AfterDigits(t)) && Size(AfterDigits(t)) <= Size(t)
    ensures Weight(TokensOf(t, Nil)) >= Weight(TokensOf(AfterDigits(t), Nil)) + if IsDigits(t) then 1 else 0
  {
    if IsDigits(t) {
      DigitTextOf(t.token.value);
      DigitsRendered(t.rest);
      Regroup(TokenText(t.token), DigitsText(t.rest), Render(AfterDigits(t.rest)));
    } else {
      assert DigitsText(t) + Render(t) == Render(t);
    }
  }

  lemma {:induction false} RunRendered(t: Text)
    requires Laid(false, t)
    ensures Render(t) == RunText(t) + Render(AfterRun(t)) && AllWordChars(RunText(t))
    ensures Laid(false, AfterRun(t)) && Size(AfterRun(t)) <= Size(t)
    ensures Weight(TokensOf(t, Nil)) >= Weight(TokensOf(AfterRun(t), Nil)) + if IsRun(t) then 1 else 0
  {
    if IsRun(t) {
      if t.token.Int? { DigitTextOf(t.token.value); }
      RunRendered(t.rest);
      Regroup(TokenText(t.token), RunText(t.rest), Render(AfterRun(t.rest)));
    } else {
      assert RunText(t) + Render(t) == Render(t);
    }
  }

  lemma Regroup(a: string, b: string, c: string)
    ensures a + (b + c) == a + b + c
  {}

  /** What stands behind a name or a number does not go on with it, unless it is one of the tokens it runs on into. */
  lemma NextStops(token: Token, rest: Text)
    requires Laid(false, T(token, rest)) && (token.Ident? || token.Int?) && !IsRun(rest)
    ensures Render(rest) == [] || !IsWordChar(Render(rest)[0])
  {
    if rest.T? { NextToken(token, rest.token, Render(rest.rest)); }
  }

  lemma NextToken(token: Token, u: Token, more: string)
    requires Lexable(u) && (IsPunctuation(u) || (u.Int? && u.value < 0))
    ensures !IsWordChar((TokenText(u) + more)[0])
  {
    if u.Int? { assert TokenText(u)[0] == '-'; }
  }

  lemma {:induction false} RunStops(t: Text)
    requires Laid(false, t) && IsRun(t)
    ensures var u := Render(AfterRun(t)); u == [] || !IsWordChar(u[0])
  {
    if IsRun(t.rest) { RunStops(t.rest); } else { NextStops(t.token, t.rest); }
  }

  /** Behind a number and the digits it runs on into there is no digit. */
  lemma {:induction false} DigitsStop(token: Token, rest: Text)
    requires Laid(false, T(token, rest)) && token.Int?
    ensures var u := Render(AfterDigits(rest)); u == [] || !IsDigit(u[0])
    ensures var u := AfterDigits(rest); (u.T? ==> u.token.Ident? || IsPunctuation(u.token) || (u.token.Int? && u.token.value < 0))
    decreases rest
  {
    if IsDigits(rest) {
      DigitsStop(rest.token, rest.rest);
    } else if rest.T? {
      if !rest.token.Ident? { NextToken(token, rest.token, Render(rest.rest)); }
    }
  }

  // ---- One step of the lexer where tokens merge ----

  /** The step fails, or it takes tokens of weight two or more for one and leaves the text `u`. */
  ghost predicate Merges(r: Step, t: Text)
  {
    || r.Bad?
    || (r.Emit? && IsCounted(r.token) && exists u: Text :: r.rest == Render(u) && IsLess(u, t))
  }

  /** A text to go on with, lighter by two. */
  predicate IsLess(u: Text, t: Text)
  {
    Laid(false, u) && Size(u) < Size(t) && Weight(TokensOf(u, Nil)) + 2 <= Weight(TokensOf(t, Nil))
  }

  lemma NameMerges(n: string, rest: Text)
    requires Laid(false, T(Ident(n), rest)) && IsRun(rest)
    ensures Render(T(Ident(n), rest)) != [] && Merges(LexStep(Render(T(Ident(n), rest))), T(Ident(n), rest))
  {
    var t := T(Ident(n), rest);
    RunRendered(rest);
    RunStops(rest);
    var u := AfterRun(rest);
    var w := n + RunText(rest);
    Regroup(n, RunText(rest), Render(u));
    assert Render(t) == w + Render(u);
    WordLexed(w, Render(u));
    assert IsLess(u, t);
  }

  lemma NumberMerges(n: int, rest: Text)
    requires Laid(false, T(Int(n), rest)) && !Leads(Int(n), rest)
    ensures Render(T(Int(n), rest)) != [] && Merges(LexStep(Render(T(Int(n), rest))), T(Int(n), rest))
  {
    var whole := NumberText(n, rest);
    DigitsStop(Int(n), rest);
    var u := AfterDigits(rest);
    if StartsFraction(Render(u)) {
      PointMerges(n, rest, u, if n < 0 then "-" else "", whole);
    } else {
      NoPoint(n, rest);
      DigitsRendered(rest);
      assert IsLess(u, T(Int(n), rest));
      hide *;
      DigitsLexed(n < 0, whole, Render(u));
      IntegerMerges(n < 0, whole, T(Int(n), rest), u);
    }
  }

  lemma IntegerMerges(negative: bool, whole: string, t: Text, u: Text)
    requires IsLess(u, t)
    ensures Merges(IntegerStep(negative, whole, Render(u)), t)
  {
    hide IsLess, Render, DecimalValue;
  }

  lemma NumberText(n: int, rest: Text) returns (whole: string)
    requires Laid(false, T(Int(n), rest))
    ensures whole != [] && AllDigits(whole)
    ensures Render(T(Int(n), rest)) == (if n < 0 then "-" else "") + whole + Render(AfterDigits(rest))
  {
    var sign := if n < 0 then "-" else "";
    var first := DecimalText(if n < 0 then -n else n);
    DigitTextOf(if n < 0 then -n else n);
    DigitsRendered(rest);
    whole := first + DigitsText(rest);
    assert TokenText(Int(n)) == sign + first;
    hide DecimalText, AllDigits, DigitsText, AfterDigits, Laid;
    Regroup(sign + first, DigitsText(rest), Render(AfterDigits(rest)));
    Regroup(sign, first, DigitsText(rest));
  }

  lemma NoPoint(n: int, rest: Text)
    requires Laid(false, T(Int(n), rest)) && !Leads(Int(n), rest) && !StartsFraction(Render(AfterDigits(rest)))
    ensures IsDigits(rest)
  {
    PointStarts(rest);
  }

  lemma PointStarts(rest: Text)
    ensures rest.T? && rest.token == Dot && DigitFirst(rest.rest) ==>
              StartsFraction(Render(rest)) && AfterDigits(rest) == rest
  {
    if rest.T? && rest.token == Dot && DigitFirst(rest.rest) { assert Render(rest) == "." + Render(rest.rest); }
  }

  lemma PointMerges(n: int, rest: Text, u: Text, sign: string, whole: string)
    requires Laid(false, T(Int(n), rest)) && u == AfterDigits(rest) && StartsFraction(Render(u))
    requires whole != [] && AllDigits(whole) && sign == (if n < 0 then "-" else "")
    requires Render(T(Int(n), rest)) == sign + whole + Render(u)
    ensures Render(T(Int(n), rest)) != [] && Merges(LexStep(Render(T(Int(n), rest))), T(Int(n), rest))
  {
    DigitsRendered(rest);
    DigitsStop(Int(n), rest);
    PointIsDot(u);
    var more := u.rest;
    var v := AfterDigits(more);
    PointText(u);
    FractionStops(u);
    PointCounts(n, rest, u);
    hide *;
    PointLexed(n < 0, whole, Render(u));
    FractionTaken(sign + whole, DigitsText(more), v);
    MergesInto(LexStep(sign + whole + Render(u)), T(Int(n), rest), v);
  }

  lemma MergesInto(r: Step, t: Text, v: Text)
    requires r.Bad? || (r.Emit? && IsCounted(r.token) && (r.rest == Render(v) || r.rest == Render(AfterRun(v))))
    requires IsLess(v, t) && IsLess(AfterRun(v), t)
    ensures Merges(r, t)
  {
    hide IsLess, Render, AfterRun;
  }

  lemma PointText(u: Text)
    requires Laid(false, u) && u.T? && u.token == Dot && IsDigits(u.rest)
    ensures
      var more := u.rest;
      Render(u) == "." + (DigitsText(more) + Render(AfterDigits(more))) && DigitsText(more) != []
        && AllDigits(DigitsText(more))
  {
    DigitsRendered(u.rest);
    DigitTextOf(u.rest.token.value);
    hide AllDigits, DecimalText;
  }

  lemma FractionStops(u: Text)
    requires Laid(false, u) && u.T? && u.token == Dot && IsDigits(u.rest)
    ensures
      var v := AfterDigits(u.rest);
      && Laid(false, v)
      && (Render(v) == [] || !IsDigit(Render(v)[0]))
      && (v.T? ==> v.token.Ident? || IsPunctuation(v.token) || (v.token.Int? && v.token.value < 0))
  {
    var more := u.rest;
    DigitsRendered(more);
    DigitsStop(more.token, more.rest);
  }

  lemma PointCounts(n: int, rest: Text, u: Text)
    requires Laid(false, T(Int(n), rest)) && u == AfterDigits(rest) && u.T? && u.token == Dot && IsDigits(u.rest)
    ensures
      var t, v := T(Int(n), rest), AfterDigits(u.rest);
      IsLess(v, t) && IsLess(AfterRun(v), t)
  {
    hide Leads, Runs, Lexable, Render;
    DigitsRendered(rest);
    DigitsRendered(u.rest);
    RunRendered(AfterDigits(u.rest));
  }

  lemma PointIsDot(u: Text)
    requires Laid(false, u) && StartsFraction(Render(u))
    requires u.T? ==> u.token.Ident? || IsPunctuation(u.token) || (u.token.Int? && u.token.value < 0)
    ensures u.T? && u.token == Dot && IsDigits(u.rest)
  {
    if u.T? {
      TextNotEmpty(u.token);
      if u.token == Dot {
        assert Render(u) == "." + Render(u.rest) && Render(u)[1] == Render(u.rest)[0];
        DigitIsInt(u.rest);
      }
    }
  }

  lemma DigitIsInt(t: Text)
    requires Laid(false, t) && Render(t) != [] && IsDigit(Render(t)[0]) && (t.T? ==> !t.token.Real? && !t.token.RealF32?)
    ensures IsDigits(t)
  {
    if t.T? { TextNotEmpty(t.token); }
  }

  /** After the digits of a fraction a name is taken for its suffix. */
  lemma FractionTaken(whole: string, frac: string, v: Text)
    requires frac != [] && AllDigits(frac) && Laid(false, v)
    requires Render(v) == [] || !IsDigit(Render(v)[0])
    requires v.T? ==> v.token.Ident? || IsPunctuation(v.token) || (v.token.Int? && v.token.value < 0)
    ensures
      var r := FractionStep(whole, "." + (frac + Render(v)));
      || r.Bad?
      || (r.Emit? && IsCounted(r.token) && (r.rest == Render(v) || r.rest == Render(AfterRun(v))))
  {
    var after := Render(v);
    var k := SuffixLength(after);
    FractionIs(whole, frac, after);
    SuffixTaken(v);
    RealCounts(whole + ("." + frac), after[..k], after[k..]);
    hide *;
  }

  lemma RealCounts(text: string, suffix: string, rest: string)
    ensures var r := RealStep(text, suffix, rest); r.Bad? || (r.Emit? && IsCounted(r.token) && r.rest == rest)
  {}

  lemma SuffixTaken(v: Text)
    requires Laid(false, v) && (v.T? ==> v.token.Ident? || IsPunctuation(v.token) || (v.token.Int? && v.token.value < 0))
    ensures
      var s := Render(v);
      s[SuffixLength(s)..] == s || s[SuffixLength(s)..] == Render(AfterRun(v))
  {
    var s := Render(v);
    if SuffixLength(s) == 0 {
      assert s[0..] == s;
    } else {
      SuffixIsName(v);
      RunRendered(v);
      RunStops(v);
      WordRunOf(RunText(v), Render(AfterRun(v)));
      assert s[|RunText(v)|..] == Render(AfterRun(v));
    }
  }

  lemma SuffixIsName(v: Text)
    requires Laid(false, v) && Render(v) != [] && IsAlpha(Render(v)[0])
    requires v.T? ==> v.token.Ident? || IsPunctuation(v.token) || (v.token.Int? && v.token.value < 0)
    ensures v.T? && v.token.Ident?
  {
    if v.T? { TextNotEmpty(v.token); }
  }

  // ---- A whole text ----

  /** Lexing a text never finds more than its weight, and finds less when tokens merge. */
  lemma {:induction false} MergedTokensAreLost(t: Text)
    requires Laid(false, t)
    ensures
      var r := Lex(Render(t));
      r.SomeTokens? ==>
        && Weight(ListOf(r.tokens)) <= Weight(TokensOf(t, Nil))
        && (!Safe(t) ==> Weight(ListOf(r.tokens)) < Weight(TokensOf(t, Nil)))
    decreases Size(t)
  {
    match t
    case End =>
    case W(blank, rest) =>
      MergedTokensAreLost(rest);
      GapLexed(blank, Render(rest));
    case T(token, rest) =>
      if Leads(token, rest) {
        MergedTokensAreLost(rest);
        LeadsFollow(false, token, rest);
        TokenLexed(token, Render(rest));
        TokenPrepended(token, Render(t), Render(rest));
      } else {
        if token.Ident? { NameMerges(token.name, rest); } else { NumberMerges(token.value, rest); }
        var s := Render(t);
        TextNotEmpty(token);
        if !LexStep(s).Bad? {
          var u: Text :| LexStep(s).rest == Render(u) && IsLess(u, t);
          MergedTokensAreLost(u);
          TokenPrepended(LexStep(s).token, s, Render(u));
        }
      }
  }

  lemma TokenPrepended(token: Token, s: string, rest: string)
    requires s != [] && LexStep(s) == Emit(token, rest)
    ensures Lex(s).SomeTokens? <==> Lex(rest).SomeTokens?
    ensures Lex(s).SomeTokens? ==>
      Weight(ListOf(Lex(s).tokens)) == Weight(ListOf(Lex(rest).tokens)) + if IsCounted(token) then 1 else 0
  {
    if Lex(rest).SomeTokens? {
      var ts := Lex(rest).tokens;
      assert Lex(s).tokens == [token] + ts && ([token] + ts)[1..] == ts;
    }
  }
}
