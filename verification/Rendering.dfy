/** Formatted text as lexemes and blanks, and why lexing it gives the lexemes back. */
module Rendering {
  import opened Tokens
  import opened Lexer

  /** Text as the formatter builds it: token texts, gaps between them, then more text. */
  datatype Text = End | T(token: Token, rest: Text) | W(gap: string, rest: Text)

  function Render(t: Text): string
  {
    match t
    case End => []
    case T(token, rest) => TokenText(token) + Render(rest)
    case W(blank, rest) => blank + Render(rest)
  }

  /** The tokens of a text, followed by `k`. */
  function TokensOf(t: Text, k: List): List
  {
    match t
    case End => k
    case T(token, rest) => Cons(token, TokensOf(rest, k))
    case W(_, rest) => TokensOf(rest, k)
  }

  function Append(t: Text, u: Text): Text
  {
    match t
    case End => u
    case T(token, rest) => T(token, Append(rest, u))
    case W(blank, rest) => W(blank, Append(rest, u))
  }

  lemma {:induction false} RenderAppend(t: Text, u: Text)
    ensures Render(Append(t, u)) == Render(t) + Render(u)
  {
    match t
    case End =>
    case T(token, rest) => RenderAppend(rest, u);
    case W(blank, rest) => RenderAppend(rest, u);
  }

  lemma {:induction false} TokensAppend(t: Text, u: Text, k: List)
    ensures TokensOf(Append(t, u), k) == TokensOf(t, TokensOf(u, k))
  {
    match t
    case End =>
    case T(token, rest) => TokensAppend(rest, u, k);
    case W(blank, rest) => TokensAppend(rest, u, k);
  }

  lemma {:induction false} AppendEnd(t: Text)
    ensures Append(t, End) == t
  {
    match t
    case End =>
    case T(token, rest) => AppendEnd(rest);
    case W(blank, rest) => AppendEnd(rest);
  }

  predicate IsBracket(t: Token)
  {
    t.LParen? || t.RParen? || t.LBrace? || t.RBrace? || t.LBracket? || t.RBracket? || t.Less? || t.Greater?
  }

  predicate IsPunctuation(t: Token)
  {
    IsBracket(t) || t.Comma? || t.Colon? || t.Equal? || t.Pipe? || t.Dot?
  }

  // ---- Gaps: blanks and comments ----

  /** The lexer drops this text whole, whatever follows: blanks, lines from `#` on, and closed block comments. */
  predicate Skips(s: string)
    decreases |s|
  {
    || s == []
    || (IsBlank(s[0]) && Skips(s[1..]))
    || (s[0] == '#' && '\n' in s && Skips(AfterLine(s[1..])))
    || (|s| >= 2 && s[0] == '/' && s[1] == '*' && AfterBlock(s[2..]).Scanned? && Skips(AfterBlock(s[2..]).rest))
  }

  predicate IsGap(s: string) { s != [] && Skips(s) }

  /** A gap that starts with a blank, so that it may stand behind a discard as well. */
  predicate Parted(t: Text) { t.W? && t.gap != [] && IsBlank(t.gap[0]) }

  lemma {:induction false} BlankSkips(b: string)
    requires AllBlank(b)
    ensures Skips(b)
  {
    if b != [] { BlankSkips(b[1..]); }
  }

  lemma BlankIsGap(b: string)
    requires AllBlank(b) && b != []
    ensures IsGap(b) && IsBlank(b[0])
  {
    BlankSkips(b);
  }

  lemma {:induction false} AfterLineOf(a: string, s: string)
    requires '\n' in a
    ensures AfterLine(a + s) == AfterLine(a) + s && |AfterLine(a)| < |a|
  {
    assert (a + s)[1..] == a[1..] + s;
    if a[0] != '\n' { AfterLineOf(a[1..], s); }
  }

  lemma {:induction false} AfterBlockOf(a: string, s: string)
    requires AfterBlock(a).Scanned?
    ensures AfterBlock(a + s) == Scanned([], AfterBlock(a).rest + s)
  {
    if a[0] == '*' && a[1] == '/' {
      assert (a + s)[2..] == a[2..] + s && (a + s)[1] == a[1];
    } else {
      assert (a + s)[1..] == a[1..] + s;
      AfterBlockOf(a[1..], s);
    }
  }

  /** Lexing goes on behind a gap. */
  lemma {:induction false} GapLexed(b: string, rest: string)
    requires Skips(b)
    ensures Lex(b + rest) == Lex(rest)
    decreases |b|
  {
    if b == [] {
      assert b + rest == rest;
    } else {
      assert (b + rest)[1..] == b[1..] + rest;
      if IsBlank(b[0]) {
        GapLexed(b[1..], rest);
      } else if b[0] == '#' {
        AfterLineOf(b[1..], rest);
        GapLexed(AfterLine(b[1..]), rest);
      } else {
        assert (b + rest)[2..] == b[2..] + rest;
        AfterBlockOf(b[2..], rest);
        GapLexed(AfterBlock(b[2..]).rest, rest);
      }
    }
  }

  /** Whether `u` may follow `t` with no blank between and both still be lexed as written. */
  predicate Separate(t: Token, u: Token)
  {
    if t.Ident? || t.Variable? || t.Bool? then IsPunctuation(u) || (u.Int? && u.value < 0)
    else if t.Int? then (IsPunctuation(u) && u != Dot) || u.Ident? || (u.Int? && u.value < 0)
    else if t.Real? || t.RealF32? then IsPunctuation(u) && u != Dot
    else if t.Discard? then u == Comma || u == RParen || u == RBrace || u == RBracket
    else if t.Dot? then !u.Real? && !u.RealF32?
    else true
  }

  predicate DigitFirst(t: Text) { t.T? && TokenText(t.token) != [] && IsDigit(TokenText(t.token)[0]) }

  /** The same condition on the text that follows a token. */
  predicate Follows(t: Token, rest: string)
  {
    if t.Ident? || t.Variable? || t.Bool? then rest != [] ==> !IsWordChar(rest[0])
    else if t.Int? then (rest != [] ==> !IsDigit(rest[0])) && !StartsFraction(rest)
    else if t.Real? || t.RealF32? then rest != [] ==> !IsWordChar(rest[0])
    else if t.Discard? then EndsDiscard(rest) && !StartsWord(rest[0])
    else true
  }

  lemma FollowedByToken(t: Token, u: Token, rest: string)
    requires Separate(t, u) && Lexable(u)
    ensures Follows(t, TokenText(u) + rest)
  {
    if u.Int? && u.value < 0 { assert TokenText(u)[0] == '-'; }
  }

  /** A number and a point, with no digit behind it. */
  lemma FollowedByPoint(n: int, more: Text)
    requires !DigitFirst(more) && (more.T? ==> Lexable(more.token)) && (more.W? ==> IsGap(more.gap))
    ensures Follows(Int(n), TokenText(Dot) + Render(more))
  {
    var s := "." + Render(more);
    assert s[1..] == Render(more);
    if more.T? { TextNotEmpty(more.token); }
  }

  lemma TextNotEmpty(t: Token)
    requires Lexable(t)
    ensures TokenText(t) != []
  {}

  lemma FollowedByGap(t: Token, b: string, rest: string)
    requires IsGap(b) && (t == Discard ==> IsBlank(b[0]))
    ensures Follows(t, b + rest)
  {
  }

  // ---- One token ----

  lemma EscapeCharUndone(acc: string, c: char, tail: string)
    ensures StringBody(acc, EscapeChar(c) + tail) == StringBody(acc + [c], tail)
  {
    var e := EscapeChar(c);
    if |e| == 1 {
      assert (e + tail)[1..] == tail;
    } else {
      assert (e + tail)[2..] == tail;
      assert Unescape(e[1]) == [c];
    }
  }

  lemma {:induction false} EscapeUndone(acc: string, s: string, rest: string)
    ensures StringBody(acc, EscapeText(s) + ("\"" + rest)) == Scanned(acc + s, rest)
    decreases |s|
  {
    if s == [] {
      assert EscapeText(s) + ("\"" + rest) == "\"" + rest;
      assert ("\"" + rest)[1..] == rest;
    } else {
      var tail := EscapeText(s[1..]) + ("\"" + rest);
      assert EscapeText(s) + ("\"" + rest) == EscapeChar(s[0]) + tail;
      EscapeCharUndone(acc, s[0], tail);
      EscapeUndone(acc + [s[0]], s[1..], rest);
      assert acc + [s[0]] + s[1..] == acc + s;
    }
  }

  lemma IntegerUndone(n: int, rest: string)
    requires IsI64(n)
    ensures IntegerStep(n < 0, DecimalText(if n < 0 then -n else n), rest) == Emit(Int(n), rest)
  {
    DecimalRoundTrip(if n < 0 then -n else n);
  }

  lemma IntLexed(n: int, rest: string)
    requires IsI64(n) && Follows(Int(n), rest)
    ensures LexStep(IntText(n) + rest) == Emit(Int(n), rest)
  {
    IntegerUndone(n, rest);
    var ds := DecimalText(if n < 0 then -n else n);
    DigitsLexed(n < 0, ds, rest);
    assert "" + ds == ds;
  }

  lemma SignedText(negative: bool, ds: string, after: string)
    requires ds != [] && AllDigits(ds)
    ensures
      var s := (if negative then "-" else "") + ds + after;
      && s != [] && (if negative then s[0] == '-' && s[1..] == ds + after else s == ds + after && s[0] == ds[0])
      && !StartsArrow(s)
  {
    var s := (if negative then "-" else "") + ds + after;
    if negative { assert s[1] == ds[0]; } else { assert s == ds + after; }
  }

  /** A sign and digits, up to what stands behind them. */
  lemma NumberLexed(negative: bool, ds: string, after: string)
    requires ds != [] && AllDigits(ds) && (after != [] ==> !IsDigit(after[0]))
    ensures
      var sign := if negative then "-" else "";
      LexStep(sign + ds + after)
      == if StartsFraction(after) then FractionStep(sign + ds, after) else IntegerStep(negative, ds, after)
  {
    var s := (if negative then "-" else "") + ds + after;
    SignedText(negative, ds, after);
    DigitRunOf(ds, after);
    assert IsDigit(ds[0]);
    hide NumberStep, FractionStep, IntegerStep, DigitRun, AllDigits, StartsArrow, StartsFraction;
    NumberIs(s, negative, ds + after, ds, after);
    assert LexStep(s) == NumberStep(s);
  }

  lemma DigitsLexed(negative: bool, ds: string, rest: string)
    requires ds != [] && AllDigits(ds) && (rest != [] ==> !IsDigit(rest[0])) && !StartsFraction(rest)
    ensures LexStep((if negative then "-" else "") + ds + rest) == IntegerStep(negative, ds, rest)
  {
    NumberLexed(negative, ds, rest);
  }

  lemma FractionLexed(whole: string, frac: string, suffix: string, rest: string)
    requires frac != [] && AllDigits(frac) && (suffix == "" || suffix == "f32")
    requires rest != [] ==> !IsWordChar(rest[0])
    ensures
      FractionStep(whole, "." + (frac + (suffix + rest)))
      == Emit(if suffix == "" then Real(whole + ("." + frac)) else RealF32(whole + ("." + frac)), rest)
  {
    FractionIs(whole, frac, suffix + rest);
    WordRunOf(suffix, rest);
    hide FractionStep, AllDigits;
    if suffix == "" {
      assert suffix + rest == rest && rest[..0] == [] && rest[0..] == rest;
    } else {
      assert (suffix + rest)[..3] == suffix && (suffix + rest)[3..] == rest;
    }
  }

  lemma PointLexed(negative: bool, whole: string, point: string)
    requires whole != [] && AllDigits(whole) && StartsFraction(point)
    ensures
      var sign := if negative then "-" else "";
      LexStep(sign + whole + point) == FractionStep(sign + whole, point)
  {
    NumberLexed(negative, whole, point);
  }

  lemma RealParts(text: string) returns (negative: bool, whole: string, frac: string)
    requires IsRealText(text)
    ensures text == (if negative then "-" else "") + whole + ("." + frac)
    ensures whole != [] && AllDigits(whole) && frac != [] && AllDigits(frac)
  {
    negative := text[0] == '-';
    var t := if negative then text[1..] else text;
    var n := DigitRun(t);
    DigitRunSplits(t);
    hide DigitRun, AllDigits, IsRealText;
    whole, frac := t[..n], t[n + 1..];
    PointSplits(t, n);
    assert text == (if negative then "-" else "") + t;
    hide *;
    SignFirst(if negative then "-" else "", whole, "." + frac);
  }

  lemma PointSplits(t: string, n: nat)
    requires n < |t| && t[n] == '.'
    ensures t == t[..n] + ("." + t[n + 1..])
  {}

  lemma RealLexed(text: string, suffix: string, rest: string)
    requires IsRealText(text) && (suffix == "" || suffix == "f32")
    requires rest != [] ==> !IsWordChar(rest[0])
    ensures LexStep(text + suffix + rest) == Emit(if suffix == "" then Real(text) else RealF32(text), rest)
  {
    var negative, whole, frac := RealParts(text);
    var point := "." + (frac + (suffix + rest));
    var sign := if negative then "-" else "";
    assert text + suffix + rest == sign + whole + point;
    assert point[0] == '.' && point[1] == frac[0];
    PointLexed(negative, whole, point);
    FractionLexed(sign + whole, frac, suffix, rest);
  }

  lemma WordLexed(w: string, rest: string)
    requires IsWord(w) && (rest != [] ==> !IsWordChar(rest[0]))
    ensures LexStep(w + rest) == Emit(WordToken(w), rest)
  {
    WordRunOf(w, rest);
    assert (w + rest)[..|w|] == w && (w + rest)[|w|..] == rest;
  }

  lemma VariableLexed(n: string, rest: string)
    requires IsWord(n) && (rest != [] ==> !IsWordChar(rest[0]))
    ensures LexStep("$" + n + rest) == Emit(Variable(n), rest)
  {
    var s := "$" + n + rest;
    assert s[1..] == n + rest;
    WordRunOf(n, rest);
    assert s[1..][..|n|] == n && s[1..][|n|..] == rest;
  }

  lemma StringLexed(v: string, rest: string)
    ensures LexStep(TokenText(Str(v)) + rest) == Emit(Str(v), rest)
  {
    hide StringBody, EscapeText, SlashStep, NumberStep, VariableStep, WordStep, AfterLine, OneChar;
    var s := TokenText(Str(v)) + rest;
    EscapeUndone([], v, rest);
    assert s[1..] == EscapeText(v) + ("\"" + rest);
    assert [] + v == v;
  }

  lemma PunctuationLexed(t: Token, rest: string)
    requires IsPunctuation(t)
    ensures LexStep(TokenText(t) + rest) == Emit(t, rest)
  {
    var s := TokenText(t) + rest;
    assert |TokenText(t)| == 1 && OneChar(TokenText(t)[0]) == t;
    assert s[0] == TokenText(t)[0] && s[1..] == rest;
  }

  /** A token written down and followed by text it does not merge with is read back. */
  lemma TokenLexed(t: Token, rest: string)
    requires Lexable(t) && Follows(t, rest)
    ensures TokenText(t) != []
    ensures LexStep(TokenText(t) + rest) == Emit(t, rest)
  {
    TextNotEmpty(t);
    hide LexStep, DecimalText, EscapeText, IsRealText, StartsFraction;
    match t
    case Ident(n) => WordLexed(n, rest);
    case Variable(n) => VariableLexed(n, rest);
    case Discard => DiscardLexed(rest);
    case Int(n) => IntLexed(n, rest);
    case Real(text) =>
      RealLexed(text, "", rest);
      assert text + "" == text;
    case RealF32(text) => RealLexed(text, "f32", rest);
    case Bool(b) => WordLexed(if b then "true" else "false", rest);
    case Str(v) => StringLexed(v, rest);
    case Arrow => ArrowLexed(rest);
    case _ => PunctuationLexed(t, rest);
  }

  lemma DiscardLexed(rest: string)
    requires Follows(Discard, rest)
    ensures LexStep("$" + rest) == Emit(Discard, rest)
  {
    assert ("$" + rest)[1..] == rest;
  }

  lemma ArrowLexed(rest: string)
    ensures LexStep("->" + rest) == Emit(Arrow, rest)
  {
    assert ("->" + rest)[2..] == rest;
  }

  // ---- A whole text ----

  /** Whether `rest` may follow `t` directly. */
  predicate Leads(t: Token, rest: Text)
  {
    match rest
    case End => t != Discard
    case T(u, more) => Separate(t, u) || (t.Int? && u == Dot && !DigitFirst(more))
    case W(_, _) => t != Discard || Parted(rest)
  }

  /** Names, numbers and points, as they may run into each other inside an annotation. */
  predicate Runs(t: Token, rest: Text)
  {
    (t.Ident? || t.Int?) && rest.T? && (rest.token.Ident? || rest.token.Int? || rest.token == Dot)
  }

  /**
   * Tokens are lexable and gaps are skipped. If `strict`, tokens with no blank between them do not merge; else
   * they may inside an annotation.
   */
  predicate Laid(strict: bool, t: Text)
  {
    match t
    case End => true
    case T(token, rest) => Lexable(token) && (Leads(token, rest) || (!strict && Runs(token, rest))) && Laid(strict, rest)
    case W(gap, rest) => IsGap(gap) && Laid(strict, rest)
  }

  predicate Safe(t: Text) { Laid(true, t) }

  lemma LeadsFollow(strict: bool, token: Token, rest: Text)
    requires Leads(token, rest) && Laid(strict, rest)
    ensures Follows(token, Render(rest))
  {
    match rest
    case End =>
    case T(u, more) =>
      if Separate(token, u) {
        FollowedByToken(token, u, Render(more));
      } else {
        LaidFirst(strict, more);
        FollowedByPoint(token.value, more);
      }
    case W(blank, more) => FollowedByGap(token, blank, Render(more));
  }

  lemma LaidFirst(strict: bool, t: Text)
    requires Laid(strict, t)
    ensures (t.T? ==> Lexable(t.token)) && (t.W? ==> IsGap(t.gap))
  {}

  /** Lexing a safe text gives exactly its tokens. */
  lemma {:induction false} RenderedLexes(t: Text)
    requires Safe(t)
    ensures Lex(Render(t)).SomeTokens?
    ensures ListOf(Lex(Render(t)).tokens) == TokensOf(t, Nil)
  {
    match t
    case End =>
    case T(token, rest) =>
      var s := Render(rest);
      RenderedLexes(rest);
      LeadsFollow(true, token, rest);
      TokenLexed(token, s);
      hide Lexable, Leads, Follows, LexStep, Render, Laid;
      assert ([token] + Lex(s).tokens)[1..] == Lex(s).tokens;
    case W(gap, rest) =>
      RenderedLexes(rest);
      GapLexed(gap, Render(rest));
  }
}
