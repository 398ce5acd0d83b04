/** The texts that tokens have, and the proof that src/lexer.rs reads exactly these. */
module LexicalGrammar {
  import opened Tokens
  import opened Lexer
  import opened Rendering

  // ---- Token texts ----

  predicate EndsWord(rest: string) { rest == [] || !IsWordChar(rest[0]) }

  predicate IsSignedDigits(w: string)
  {
    var d := if w != [] && w[0] == '-' then w[1..] else w;
    d != [] && AllDigits(d)
  }

  function SignedValue(w: string): int
  {
    var size: int := DecimalValue(if w != [] && w[0] == '-' then w[1..] else w);
    if w != [] && w[0] == '-' then -size else size
  }

  predicate IsEscape(c: char, v: char)
  {
    || (c == '"' && v == '"') || (c == '\\' && v == '\\') || (c == 'n' && v == '\n') || (c == 't' && v == '\t')
    || (c == 'r' && v == '\r')
  }

  /** The text between the quotes stands for the string. */
  predicate IsQuoted(v: string, body: string)
    decreases |body|
  {
    if body == [] then v == []
    else if body[0] == '\\' then
      |body| >= 2 && v != [] && IsEscape(body[1], v[0]) && IsQuoted(v[1..], body[2..])
    else body[0] != '"' && v != [] && v[0] == body[0] && IsQuoted(v[1..], body[1..])
  }

  /** The text `w` is the token, when `rest` stands behind it. */
  predicate IsWritten(t: Token, w: string, rest: string)
  {
    match t
    case Ident(n) => w == n && IsIdent(n) && EndsWord(rest)
    case Bool(b) => w == (if b then "true" else "false") && EndsWord(rest)
    case Variable(n) => w == "$" + n && IsWord(n) && EndsWord(rest)
    case Discard =>
      w == "$" && rest != []
      && (IsBlank(rest[0]) || rest[0] == ',' || rest[0] == ')' || rest[0] == '}' || rest[0] == ']' || "->" <= rest)
    case Int(n) =>
      && IsSignedDigits(w) && SignedValue(w) == n && IsI64(n)
      && (rest == [] || (!IsDigit(rest[0]) && (rest[0] == '.' ==> |rest| < 2 || !IsDigit(rest[1]))))
    case Real(text) =>
      IsRealText(text)
      && if w == text then rest == [] || (!IsDigit(rest[0]) && !IsAlpha(rest[0])) else w == text + "f64" && EndsWord(rest)
    case RealF32(text) => IsRealText(text) && w == text + "f32" && EndsWord(rest)
    case Str(v) => |w| >= 2 && w[0] == '"' && w[|w| - 1] == '"' && IsQuoted(v, w[1..|w| - 1])
    case Arrow => w == "->"
    case LParen => w == "("
    case RParen => w == ")"
    case LBrace => w == "{"
    case RBrace => w == "}"
    case LBracket => w == "["
    case RBracket => w == "]"
    case Less => w == "<"
    case Greater => w == ">"
    case Comma => w == ","
    case Colon => w == ":"
    case Equal => w == "="
    case Pipe => w == "|"
    case Dot => w == "."
    case Eof => false
  }

  /** The text up to and with the end of the line, or of everything. */
  predicate IsLine(w: string, rest: string)
  {
    && (forall i :: 0 <= i < |w| - 1 ==> w[i] != '\n')
    && (rest == [] || (w != [] && w[|w| - 1] == '\n'))
  }

  /** The text up to and with the first `*` `/`. */
  predicate IsBlock(w: string)
  {
    && |w| >= 2 && w[|w| - 2] == '*' && w[|w| - 1] == '/'
    && forall i :: 0 <= i < |w| - 2 ==> !(w[i] == '*' && w[i + 1] == '/')
  }

  /** A blank or a comment, when `rest` stands behind it. */
  predicate IsDropped(w: string, rest: string)
  {
    || (|w| == 1 && IsBlank(w[0]))
    || (w != [] && w[0] == '#' && IsLine(w[1..], rest))
    || (|w| >= 2 && w[0] == '/' && w[1] == '*' && IsBlock(w[2..]))
  }

  /** The text is the tokens, with blanks and comments between them. */
  ghost predicate Spells(s: string, ts: seq<Token>)
    decreases |s|
  {
    if s == [] then ts == []
    else
      exists n :: 0 < n <= |s| &&
        (|| (IsDropped(s[..n], s[n..]) && Spells(s[n..], ts))
         || (ts != [] && IsWritten(ts[0], s[..n], s[n..]) && Spells(s[n..], ts[1..])))
  }

  // ---- What is written is read ----

  lemma DigitsRead(w: string, rest: string)
    requires IsSignedDigits(w) && IsI64(SignedValue(w))
    requires rest == [] || (!IsDigit(rest[0]) && (rest[0] == '.' ==> |rest| < 2 || !IsDigit(rest[1])))
    ensures LexStep(w + rest) == Emit(Int(SignedValue(w)), rest)
  {
    var negative := w[0] == '-';
    var ds := if negative then w[1..] else w;
    hide LexStep, AllDigits, DecimalValue;
    assert w == (if negative then "-" else "") + ds;
    DigitsLexed(negative, ds, rest);
  }

  /** A real literal with what stands behind its digits. */
  lemma RealRead(text: string, after: string)
    requires IsRealText(text) && (after == [] || !IsDigit(after[0]))
    ensures
      var k := SuffixLength(after);
      LexStep(text + after) == RealStep(text, after[..k], after[k..])
  {
    hide LexStep, IsRealText, AllDigits, FractionStep, SuffixLength, RealStep;
    var negative, whole, frac := RealParts(text);
    var sign, point := if negative then "-" else "", "." + (frac + after);
    assert text + after == sign + whole + point;
    assert point[0] == '.' && point[1] == frac[0] && IsDigit(frac[0]) by { FirstDigit(frac); }
    PointLexed(negative, whole, point);
    FractionIs(sign + whole, frac, after);
    assert sign + whole + ("." + frac) == text;
  }

  lemma FirstDigit(ds: string)
    requires ds != [] && AllDigits(ds)
    ensures IsDigit(ds[0])
  {}

  lemma SuffixRead(suffix: string, rest: string)
    requires suffix == "f64" || suffix == "f32"
    requires EndsWord(rest)
    ensures SuffixLength(suffix + rest) == 3
  {
    WordRunOf(suffix, rest);
  }

  lemma RealWritten(t: Token, w: string, rest: string)
    requires (t.Real? || t.RealF32?) && IsWritten(t, w, rest)
    ensures LexStep(w + rest) == Emit(t, rest)
  {
    hide LexStep, IsRealText, SuffixLength;
    var text := t.text;
    if w == text {
      assert SuffixLength(rest) == 0 by { NoSuffix(rest); }
      assert rest[..0] == [] && rest[0..] == rest;
      RealRead(text, rest);
    } else {
      var suffix := if t.Real? then "f64" else "f32";
      var after := suffix + rest;
      assert w + rest == text + after;
      SuffixRead(suffix, rest);
      assert after[..3] == suffix && after[3..] == rest;
      RealRead(text, after);
    }
  }

  lemma NoSuffix(rest: string)
    requires rest == [] || !IsAlpha(rest[0])
    ensures SuffixLength(rest) == 0
  {}

  lemma {:induction false} QuotedRead(acc: string, v: string, body: string, rest: string)
    requires IsQuoted(v, body)
    ensures StringBody(acc, body + ("\"" + rest)) == Scanned(acc + v, rest)
    decreases |body|
  {
    var s := body + ("\"" + rest);
    if body == [] {
      assert s == "\"" + rest && s[1..] == rest && acc + v == acc;
    } else if body[0] == '\\' {
      assert s[2..] == body[2..] + ("\"" + rest);
      assert Unescape(s[1]) == [v[0]];
      QuotedRead(acc + [v[0]], v[1..], body[2..], rest);
      assert acc + [v[0]] + v[1..] == acc + v;
    } else {
      assert s[1..] == body[1..] + ("\"" + rest);
      QuotedRead(acc + [v[0]], v[1..], body[1..], rest);
      assert acc + [v[0]] + v[1..] == acc + v;
    }
  }

  lemma StringWritten(v: string, w: string, rest: string)
    requires IsWritten(Str(v), w, rest)
    ensures LexStep(w + rest) == Emit(Str(v), rest)
  {
    var s, body := w + rest, w[1..|w| - 1];
    hide StringBody, IsQuoted, SlashStep, NumberStep, VariableStep, WordStep, AfterLine, OneChar;
    QuotedRead([], v, body, rest);
    assert s[1..] == body + ("\"" + rest);
    assert [] + v == v;
  }

  lemma WrittenIsRead(t: Token, w: string, rest: string)
    requires IsWritten(t, w, rest)
    ensures w != [] && LexStep(w + rest) == Emit(t, rest)
  {
    hide LexStep, IsRealText, IsQuoted, IsSignedDigits, SignedValue;
    match t
    case Ident(n) => WordLexed(n, rest);
    case Variable(n) => VariableLexed(n, rest);
    case Discard => DiscardLexed(rest);
    case Int(n) =>
      assert w != [] by { SignedNotEmpty(w); }
      DigitsRead(w, rest);
    case Real(text) =>
      assert w != [] by { RealNotEmpty(text); }
      RealWritten(t, w, rest);
    case RealF32(_) => RealWritten(t, w, rest);
    case Bool(b) => WordLexed(w, rest);
    case Str(v) => StringWritten(v, w, rest);
    case Arrow => ArrowLexed(rest);
    case _ => PunctuationLexed(t, rest);
  }

  lemma SignedNotEmpty(w: string)
    requires IsSignedDigits(w)
    ensures w != []
  {}

  lemma RealNotEmpty(w: string)
    requires IsRealText(w)
    ensures w != []
  {}

  lemma {:induction false} LineRead(w: string, rest: string)
    requires IsLine(w, rest)
    ensures AfterLine(w + rest) == rest
    decreases |w|
  {
    if w == [] {
      assert w + rest == [];
    } else {
      assert (w + rest)[1..] == w[1..] + rest;
      if w[0] != '\n' { LineRead(w[1..], rest); } else { assert w == [w[0]]; }
    }
  }

  lemma {:induction false} BlockRead(w: string, rest: string)
    requires IsBlock(w)
    ensures AfterBlock(w + rest) == Scanned([], rest)
    decreases |w|
  {
    var s := w + rest;
    if |w| == 2 {
      assert s[2..] == rest;
    } else {
      assert s[1..] == w[1..] + rest && !(s[0] == '*' && s[1] == '/');
      assert forall i :: 0 <= i < |w| - 1 ==> w[1..][i] == w[i + 1];
      BlockRead(w[1..], rest);
    }
  }

  lemma DroppedIsRead(w: string, rest: string)
    requires IsDropped(w, rest)
    ensures w != [] && LexStep(w + rest) == Skip(rest)
  {
    var s := w + rest;
    assert s[0] == w[0] && s[1..] == w[1..] + rest;
    hide AfterLine, AfterBlock, IsLine, IsBlock, NumberStep, StringStep, VariableStep, WordStep, OneChar;
    if |w| == 1 && IsBlank(w[0]) {
      assert s[1..] == rest;
    } else if w[0] == '#' {
      LineRead(w[1..], rest);
    } else {
      assert s[2..] == w[2..] + rest;
      BlockRead(w[2..], rest);
    }
  }

  // ---- What is read is written ----

  /** A step that cuts off a token or drops some text reads one that is written so. */
  ghost predicate ReadIsWritten(s: string)
    requires s != []
  {
    match LexStep(s)
    case Bad => true
    case Skip(rest) => exists n :: 0 < n <= |s| && rest == s[n..] && IsDropped(s[..n], rest)
    case Emit(t, rest) => exists n :: 0 < n <= |s| && rest == s[n..] && IsWritten(t, s[..n], rest)
  }

  lemma {:induction false} LineSplit(s: string) returns (n: nat)
    ensures n <= |s| && AfterLine(s) == s[n..] && IsLine(s[..n], s[n..])
    decreases |s|
  {
    if s == [] {
      n := 0;
    } else if s[0] == '\n' {
      n := 1;
    } else {
      var m := LineSplit(s[1..]);
      n := m + 1;
      assert s[1..][m..] == s[n..];
      assert forall i :: 1 <= i < n ==> s[..n][i] == s[1..][..m][i - 1];
    }
  }

  lemma {:induction false} BlockSplit(s: string) returns (n: nat)
    requires AfterBlock(s).Scanned?
    ensures n <= |s| && AfterBlock(s) == Scanned([], s[n..]) && IsBlock(s[..n])
    decreases |s|
  {
    if s[0] == '*' && s[1] == '/' {
      n := 2;
    } else {
      var m := BlockSplit(s[1..]);
      n := m + 1;
      assert s[1..][m..] == s[n..];
      var w := s[..n];
      assert forall i :: 1 <= i < n ==> w[i] == s[1..][..m][i - 1];
    }
  }

  lemma {:induction false} StringSplit(acc: string, s: string) returns (v: string, n: nat)
    requires StringBody(acc, s).Scanned?
    ensures n < |s| && s[n] == '"' && IsQuoted(v, s[..n]) && StringBody(acc, s) == Scanned(acc + v, s[n + 1..])
    decreases |s|
  {
    if s[0] == '"' {
      v, n := [], 0;
      assert acc + v == acc;
    } else {
      var k := if s[0] == '\\' then 2 else 1;
      var c := if s[0] == '\\' then Unescape(s[1])[0] else s[0];
      assert s[0] == '\\' ==> Unescape(s[1]) == [c];
      var v', m := StringSplit(acc + [c], s[k..]);
      v, n := [c] + v', m + k;
      assert s[k..][m + 1..] == s[n + 1..];
      assert s[..n][k..] == s[k..][..m] && v[1..] == v';
      assert acc + [c] + v' == acc + v;
    }
  }

  lemma StringSplits(s: string)
    requires s != [] && s[0] == '"'
    ensures ReadIsWritten(s)
  {
    hide StringBody, IsQuoted, SlashStep, NumberStep, VariableStep, WordStep, AfterLine, OneChar;
    if StringBody([], s[1..]).Scanned? {
      var v, n := StringSplit([], s[1..]);
      assert [] + v == v;
      var w := s[..n + 2];
      assert s[1..][n + 1..] == s[n + 2..] && w[1..|w| - 1] == s[1..][..n] && w[n + 1] == s[1..][n];
      assert LexStep(s) == Emit(Str(v), s[n + 2..]);
      assert IsWritten(Str(v), w, s[n + 2..]);
    }
  }

  lemma WordSplits(s: string)
    requires s != [] && StartsWord(s[0])
    ensures ReadIsWritten(s)
  {
    WordRunSplits(s);
    WordPrefix(s);
    hide WordRun, AllWordChars;
    var n := WordRun(s);
    assert LexStep(s) == Emit(WordToken(s[..n]), s[n..]);
    assert s[..n] != [];
    assert IsWritten(WordToken(s[..n]), s[..n], s[n..]);
  }

  lemma VariableSplits(s: string)
    requires s != [] && s[0] == '$'
    ensures ReadIsWritten(s)
  {
    var s1 := s[1..];
    assert LexStep(s) == VariableStep(s);
    if s1 != [] && StartsWord(s1[0]) {
      WordRunSplits(s1);
      WordPrefix(s1);
      hide WordRun, AllWordChars;
      var n := WordRun(s1);
      assert s1[n..] == s[n + 1..] && s[..n + 1] == "$" + s1[..n];
      assert IsWritten(Variable(s1[..n]), s[..n + 1], s[n + 1..]);
    } else if EndsDiscard(s1) {
      assert s[..1] == "$";
      assert IsWritten(Discard, s[..1], s[1..]);
    }
  }

  lemma SignedIs(negative: bool, digits: string)
    requires digits != [] && AllDigits(digits)
    ensures
      var w := (if negative then "-" else "") + digits;
      && IsSignedDigits(w) && SignedValue(w) == (if negative then -(DecimalValue(digits) as int) else DecimalValue(digits))
  {
    FirstDigit(digits);
    hide AllDigits, DecimalValue;
    var w := (if negative then "-" else "") + digits;
    if negative { assert w[1..] == digits; } else { assert w == digits; }
  }

  lemma IntegerSplits(s: string, negative: bool, digits: string, after: string)
    requires digits != [] && AllDigits(digits) && s == (if negative then "-" else "") + digits + after
    requires (after == [] || !IsDigit(after[0])) && !StartsFraction(after)
    ensures s != [] && ReadIsWritten(s)
  {
    hide LexStep, AllDigits, DecimalValue, IsSignedDigits, SignedValue;
    var w := (if negative then "-" else "") + digits;
    SignedIs(negative, digits);
    DigitsLexed(negative, digits, after);
    var n := |w|;
    assert s[..n] == w && s[n..] == after;
    if LexStep(s).Emit? { assert IsWritten(LexStep(s).token, s[..n], s[n..]); }
  }

  lemma FractionSplits(s: string, negative: bool, digits: string, point: string)
    requires digits != [] && AllDigits(digits) && s == (if negative then "-" else "") + digits + point
    requires StartsFraction(point)
    ensures s != [] && ReadIsWritten(s)
  {
    hide DigitRun, AllDigits, LexStep, WordRun, FractionStep, ReadIsWritten, IsRealText, SuffixLength, RealStep;
    var f := DigitRun(point[1..]);
    DigitRunSplits(point[1..]);
    var frac, after := point[1..][..f], point[1..][f..];
    FractionNotEmpty(point);
    assert point == "." + (frac + after);
    var text := (if negative then "-" else "") + (digits + ("." + frac));
    RealTextOf(negative, digits, frac);
    assert s == text + after;
    RealRead(text, after);
    SuffixSplits(text, after);
  }

  lemma FractionNotEmpty(point: string)
    requires StartsFraction(point)
    ensures DigitRun(point[1..]) > 0
  {}

  lemma SuffixSplits(text: string, after: string)
    requires IsRealText(text) && (after == [] || !IsDigit(after[0]))
    requires
      var k := SuffixLength(after);
      LexStep(text + after) == RealStep(text, after[..k], after[k..])
    ensures text + after != [] && ReadIsWritten(text + after)
  {
    RealNotEmpty(text);
    var s, k := text + after, SuffixLength(after);
    var n := |text| + k;
    assert s[n..] == after[k..] && s[..n] == text + after[..k];
    assert text + [] == text;
    if k > 0 { WordRunSplits(after); }
    hide LexStep, IsRealText, WordRun, AllWordChars;
    if LexStep(s).Emit? {
      SuffixWritten(text, after[..k], after[k..]);
      assert IsWritten(LexStep(s).token, s[..n], s[n..]);
    }
  }

  lemma SuffixWritten(text: string, suffix: string, rest: string)
    requires IsRealText(text) && (suffix == [] || suffix == "f64" || suffix == "f32")
    requires if suffix == [] then rest == [] || (!IsDigit(rest[0]) && !IsAlpha(rest[0])) else EndsWord(rest)
    ensures IsWritten(if suffix == "f32" then RealF32(text) else Real(text), text + suffix, rest)
  {
    if suffix == [] { assert text + suffix == text; } else { assert |text + suffix| > |text|; }
  }

  lemma NumberSplits(s: string)
    requires s != [] && (s[0] == '-' || IsDigit(s[0])) && !StartsArrow(s)
    ensures ReadIsWritten(s)
  {
    var negative := s[0] == '-';
    var body := if negative then s[1..] else s;
    var n := DigitRun(body);
    DigitRunSplits(body);
    assert LexStep(s) == NumberStep(s);
    hide DigitRun, AllDigits, FractionStep, IntegerStep, LexStep;
    if n > 0 {
      assert s == (if negative then "-" else "") + body[..n] + body[n..];
      if StartsFraction(body[n..]) {
        FractionSplits(s, negative, body[..n], body[n..]);
      } else {
        IntegerSplits(s, negative, body[..n], body[n..]);
      }
    }
  }

  lemma CommentSplits(s: string)
    requires s != [] && (s[0] == '#' || s[0] == '/')
    ensures ReadIsWritten(s)
  {
    hide AfterLine, AfterBlock, IsLine, IsBlock, NumberStep, StringStep, VariableStep, WordStep, OneChar;
    if s[0] == '#' {
      var n := LineSplit(s[1..]);
      assert s[..n + 1][1..] == s[1..][..n] && s[1..][n..] == s[n + 1..];
      assert IsDropped(s[..n + 1], s[n + 1..]);
    } else if |s| >= 2 && s[1] == '*' && AfterBlock(s[2..]).Scanned? {
      var n := BlockSplit(s[2..]);
      assert s[..n + 2][2..] == s[2..][..n] && s[2..][n..] == s[n + 2..];
      assert IsDropped(s[..n + 2], s[n + 2..]);
    }
  }

  lemma ReadWasWritten(s: string)
    requires s != []
    ensures ReadIsWritten(s)
  {
    hide ReadIsWritten, NumberStep, StringStep, VariableStep, WordStep, SlashStep, AfterLine;
    var c := s[0];
    if c == '#' || c == '/' {
      CommentSplits(s);
    } else if IsDigit(c) || (c == '-' && !StartsArrow(s)) {
      NumberSplits(s);
    } else if c == '"' {
      StringSplits(s);
    } else if c == '$' {
      VariableSplits(s);
    } else if StartsWord(c) {
      WordSplits(s);
    } else {
      SignSplits(s);
    }
  }

  /** Blanks, the arrow, and single characters. */
  lemma SignSplits(s: string)
    requires s != [] && s[0] != '#' && s[0] != '/' && !IsDigit(s[0]) && (s[0] == '-' ==> StartsArrow(s))
    requires s[0] != '"' && s[0] != '$' && !StartsWord(s[0])
    ensures ReadIsWritten(s)
  {
    hide NumberStep, StringStep, VariableStep, WordStep, SlashStep, AfterLine, IsLine, IsBlock, IsQuoted;
    assert s[..1] == [s[0]];
    if IsBlank(s[0]) {
      assert IsDropped(s[..1], s[1..]);
    } else if StartsArrow(s) {
      assert s[..2] == "->";
      assert IsWritten(Arrow, s[..2], s[2..]);
    } else if OneChar(s[0]) != Eof {
      assert IsWritten(OneChar(s[0]), s[..1], s[1..]);
    }
  }

  // ---- Main result ----

  lemma SplitAgain(s: string, n: nat)
    requires n <= |s|
    ensures s[..n] + s[n..] == s
  {}

  /** The lexer accepts the texts that are tokens with blanks and comments between them, and returns these tokens. */
  lemma {:induction false} LexedIffSpelled(s: string, ts: seq<Token>)
    ensures Lex(s) == SomeTokens(ts) <==> Spells(s, ts)
    decreases |s|
  {
    if s == [] {
      return;
    }
    if Lex(s) == SomeTokens(ts) { LexedIsSpelled(s, ts); }
    if Spells(s, ts) { SpelledIsLexed(s, ts); }
  }

  lemma {:induction false} LexedIsSpelled(s: string, ts: seq<Token>)
    requires s != [] && Lex(s) == SomeTokens(ts)
    ensures Spells(s, ts)
    decreases |s|, 0
  {
    hide LexStep, IsDropped, IsWritten;
    ReadWasWritten(s);
    match LexStep(s)
    case Skip(rest) =>
      LexedIffSpelled(rest, ts);
      var n :| 0 < n <= |s| && rest == s[n..] && IsDropped(s[..n], rest);
    case Emit(t, rest) =>
      assert ts == [t] + ts[1..] && Lex(rest) == SomeTokens(ts[1..]);
      LexedIffSpelled(rest, ts[1..]);
      var n :| 0 < n <= |s| && rest == s[n..] && IsWritten(t, s[..n], rest);
  }

  lemma {:induction false} SpelledIsLexed(s: string, ts: seq<Token>)
    requires s != [] && Spells(s, ts)
    ensures Lex(s) == SomeTokens(ts)
    decreases |s|, 0
  {
    hide LexStep, IsDropped, IsWritten;
    var n :| 0 < n <= |s| &&
      (|| (IsDropped(s[..n], s[n..]) && Spells(s[n..], ts))
       || (ts != [] && IsWritten(ts[0], s[..n], s[n..]) && Spells(s[n..], ts[1..])));
    SplitAgain(s, n);
    if IsDropped(s[..n], s[n..]) && Spells(s[n..], ts) {
      DroppedIsRead(s[..n], s[n..]);
      LexedIffSpelled(s[n..], ts);
    } else {
      WrittenIsRead(ts[0], s[..n], s[n..]);
      LexedIffSpelled(s[n..], ts[1..]);
      assert [ts[0]] + ts[1..] == ts;
    }
  }
}
