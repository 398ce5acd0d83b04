/** The character scanner of src/lexer.rs: what one step reads, and the class that loops over it. */
module Lexer {
  import opened Tokens

  /** What the lexer does at a non-empty remaining text: fail, drop some of it, or cut off a token. */
  datatype Step = Bad | Skip(rest: string) | Emit(token: Token, rest: string)

  datatype Scan = NoScan | Scanned(value: string, rest: string)

  function Step1(t: Token, s: string): Step
    requires s != []
  {
    Emit(t, s[1..])
  }

  /** `#` runs to the end of its line, newline included. */
  function AfterLine(s: string): (r: string)
    ensures |r| <= |s|
  {
    if s == [] then [] else if s[0] == '\n' then s[1..] else AfterLine(s[1..])
  }

  /** The text after the first `*` `/`, if there is one. */
  function AfterBlock(s: string): (r: Scan)
    ensures r.Scanned? ==> |r.rest| <= |s|
  {
    if |s| < 2 then NoScan
    else if s[0] == '*' && s[1] == '/' then Scanned([], s[2..])
    else AfterBlock(s[1..])
  }

  function Unescape(c: char): (r: seq<char>)
  {
    match c
    case '"' => "\""
    case '\\' => "\\"
    case 'n' => "\n"
    case 't' => "\t"
    case 'r' => "\r"
    case _ => []
  }

  /** The rest of a string literal after its opening quote; `acc` is what was read so far. */
  function StringBody(acc: string, s: string): (r: Scan)
    ensures r.Scanned? ==> |r.rest| < |s|
    decreases |s|
  {
    if s == [] then NoScan
    else if s[0] == '"' then Scanned(acc, s[1..])
    else if s[0] == '\\' then
      if |s| < 2 || Unescape(s[1]) == [] then NoScan
      else StringBody(acc + Unescape(s[1]), s[2..])
    else StringBody(acc + [s[0]], s[1..])
  }

  function StringStep(s: string): Step
    requires s != [] && s[0] == '"'
  {
    match StringBody([], s[1..])
    case NoScan => Bad
    case Scanned(v, rest) => Emit(Str(v), rest)
  }

  /** What may stand after a lone `$` for it to be a discard. */
  predicate EndsDiscard(s: string)
  {
    || (s != [] && (IsBlank(s[0]) || s[0] == ',' || s[0] == ')' || s[0] == '}' || s[0] == ']'))
    || StartsArrow(s)
  }

  predicate StartsArrow(s: string) { |s| >= 2 && s[0] == '-' && s[1] == '>' }

  function VariableStep(s: string): Step
    requires s != [] && s[0] == '$'
  {
    var s1 := s[1..];
    if s1 != [] && StartsWord(s1[0]) then
      var n := WordRun(s1);
      Emit(Variable(s1[..n]), s1[n..])
    else if EndsDiscard(s1) then Emit(Discard, s1)
    else Bad
  }

  function WordToken(w: string): Token
  {
    if w == "true" then Bool(true) else if w == "false" then Bool(false) else Ident(w)
  }

  function WordStep(s: string): Step
    requires s != [] && StartsWord(s[0])
  {
    var n := WordRun(s);
    Emit(WordToken(s[..n]), s[n..])
  }

  /** How many characters of an `f32`-like suffix follow the digits of a real literal. */
  function SuffixLength(s: string): (n: nat)
    ensures n <= |s|
  {
    if s != [] && IsAlpha(s[0]) then WordRun(s) else 0
  }

  function RealStep(text: string, suffix: string, rest: string): Step
  {
    if suffix == [] || suffix == "f64" then Emit(Real(text), rest)
    else if suffix == "f32" then Emit(RealF32(text), rest)
    else Bad
  }

  /** The decimal point of a real literal is followed by a digit. */
  predicate StartsFraction(s: string) { |s| >= 2 && s[0] == '.' && IsDigit(s[1]) }

  /** A real literal whose sign and whole part are `whole`; `s` starts at its point. */
  function FractionStep(whole: string, s: string): (r: Step)
    requires s != []
    ensures !r.Skip? && (r.Emit? ==> |r.rest| < |s|)
  {
    var n := 1 + DigitRun(s[1..]);
    var after := s[n..];
    var k := SuffixLength(after);
    RealStep(whole + s[..n], after[..k], after[k..])
  }

  /** An integer literal; one outside 64 bits is an error. */
  function IntegerStep(negative: bool, digits: string, rest: string): Step
  {
    var magnitude: int := DecimalValue(digits);
    var value := if negative then -magnitude else magnitude;
    if IsI64(value) then Emit(Int(value), rest) else Bad
  }

  function NumberStep(s: string): (r: Step)
    requires s != [] && (s[0] == '-' || IsDigit(s[0]))
    ensures !r.Skip? && (r.Emit? ==> |r.rest| < |s|)
  {
    var negative := s[0] == '-';
    var body := if negative then s[1..] else s;
    var n := DigitRun(body);
    if n == 0 then Bad
    else if StartsFraction(body[n..]) then FractionStep((if negative then "-" else "") + body[..n], body[n..])
    else IntegerStep(negative, body[..n], body[n..])
  }

  /** The tokens that are a single character; `Eof` for any other character. */
  function OneChar(c: char): Token
  {
    match c
    case '(' => LParen
    case ')' => RParen
    case '{' => LBrace
    case '}' => RBrace
    case '[' => LBracket
    case ']' => RBracket
    case '<' => Less
    case '>' => Greater
    case ',' => Comma
    case ':' => Colon
    case '=' => Equal
    case '|' => Pipe
    case '.' => Dot
    case _ => Eof
  }

  /** `/` only starts a block comment. */
  function SlashStep(s: string): (r: Step)
    requires s != []
    ensures !r.Bad? ==> r.Skip? && |r.rest| < |s|
  {
    if |s| >= 2 && s[1] == '*' then
      match AfterBlock(s[2..])
      case NoScan => Bad
      case Scanned(_, rest) => Skip(rest)
    else Bad
  }

  /** One iteration of the loop of lex_all. */
  function LexStep(s: string): (r: Step)
    requires s != []
    ensures !r.Bad? ==> |r.rest| < |s|
  {
    var c := s[0];
    if IsBlank(c) then Skip(s[1..])
    else if c == '#' then Skip(AfterLine(s[1..]))
    else if c == '/' then SlashStep(s)
    else if StartsArrow(s) then Emit(Arrow, s[2..])
    else if c == '-' || IsDigit(c) then NumberStep(s)
    else if c == '"' then StringStep(s)
    else if c == '$' then VariableStep(s)
    else if OneChar(c) != Eof then Step1(OneChar(c), s)
    else if StartsWord(c) then WordStep(s)
    else Bad
  }

  datatype Lexed = NoTokens | SomeTokens(tokens: seq<Token>)

  function Prepend(ts: seq<Token>, r: Lexed): Lexed
  {
    match r
    case NoTokens => NoTokens
    case SomeTokens(us) => SomeTokens(ts + us)
  }

  /** All tokens of a text, without the final `Eof`. */
  function Lex(s: string): Lexed
    decreases |s|
  {
    if s == [] then SomeTokens([])
    else
      match LexStep(s)
      case Bad => NoTokens
      case Skip(rest) => Lex(rest)
      case Emit(t, rest) => Prepend([t], Lex(rest))
  }

  lemma PrependTwice(a: seq<Token>, b: seq<Token>, r: Lexed)
    ensures Prepend(a, Prepend(b, r)) == Prepend(a + b, r)
  {
    if r.SomeTokens? {
      assert a + (b + r.tokens) == (a + b) + r.tokens;
    }
  }

  // ---- Every token of a lexed text is one the lexer can produce ----

  lemma WordPrefix(s: string)
    requires s != [] && StartsWord(s[0])
    ensures IsWord(s[..WordRun(s)])
  {
    WordRunSplits(s);
  }

  lemma RealTextOf(negative: bool, whole: string, frac: string)
    requires whole != [] && frac != [] && AllDigits(whole) && AllDigits(frac)
    ensures IsRealText((if negative then "-" else "") + (whole + ("." + frac)))
  {
    var t := whole + ("." + frac);
    var text := (if negative then "-" else "") + t;
    assert (if text[0] == '-' then text[1..] else text) == t;
    DigitRunOf(whole, "." + frac);
    assert t[|whole|] == '.';
    assert t[|whole| + 1..] == frac;
  }

  lemma FractionLexable(negative: bool, whole: string, s: string)
    requires whole != [] && AllDigits(whole) && StartsFraction(s)
    ensures
      var r := FractionStep((if negative then "-" else "") + whole, s);
      r.Emit? ==> Lexable(r.token)
  {
    var n := DigitRun(s[1..]);
    DigitRunSplits(s[1..]);
    assert s == "." + (s[1..][..n] + s[1..][n..]);
    hide FractionStep, AllDigits, DigitRun;
    DigitsLexable(negative, whole, s[1..][..n], s[1..][n..]);
  }

  lemma DigitsLexable(negative: bool, whole: string, frac: string, after: string)
    requires whole != [] && AllDigits(whole) && frac != [] && AllDigits(frac) && (after == [] || !IsDigit(after[0]))
    ensures
      var r := FractionStep((if negative then "-" else "") + whole, "." + (frac + after));
      r.Emit? ==> Lexable(r.token)
  {
    var sign := if negative then "-" else "";
    RealTextOf(negative, whole, frac);
    hide FractionStep, IsRealText, AllDigits, SuffixLength;
    FractionIs(sign + whole, frac, after);
    SignFirst(sign, whole, "." + frac);
  }

  /** What a fraction is once its digits are known. */
  lemma FractionIs(whole: string, frac: string, after: string)
    requires AllDigits(frac) && (after == [] || !IsDigit(after[0]))
    ensures
      var k := SuffixLength(after);
      FractionStep(whole, "." + (frac + after)) == RealStep(whole + ("." + frac), after[..k], after[k..])
  {
    var s := "." + (frac + after);
    assert s[1..] == frac + after;
    DigitRunOf(frac, after);
    hide DigitRun, SuffixLength, RealStep, AllDigits;
    assert s[1 + |frac|..] == after && s[..1 + |frac|] == "." + frac;
  }

  lemma SignFirst(sign: string, whole: string, rest: string)
    ensures sign + whole + rest == sign + (whole + rest)
  {}

  /** What a number is once its sign and digits are known. */
  lemma NumberIs(s: string, negative: bool, body: string, digits: string, after: string)
    requires s != [] && (s[0] == '-' || IsDigit(s[0])) && negative == (s[0] == '-')
             && body == if negative then s[1..] else s
    requires body == digits + after && |digits| == DigitRun(body)
    ensures
      NumberStep(s)
      == if digits == [] then Bad
         else if StartsFraction(after) then FractionStep((if negative then "-" else "") + digits, after)
         else IntegerStep(negative, digits, after)
  {
    hide FractionStep, IntegerStep, DigitRun;
    assert body[..|digits|] == digits && body[|digits|..] == after;
  }

  /** The same for a number between two places of a text. */
  lemma NumberAt(chars: string, start: nat, first: nat, end: nat)
    requires start < |chars| && (chars[start] == '-' || IsDigit(chars[start]))
    requires first == (if chars[start] == '-' then start + 1 else start) && first <= |chars|
             && end == first + DigitRun(chars[first..])
    ensures
      var point := end + 1 < |chars| && chars[end] == '.' && IsDigit(chars[end + 1]);
      NumberStep(chars[start..])
      == if first == end then Bad
         else if point then FractionStep(chars[start..end], chars[end..])
         else IntegerStep(chars[start] == '-', chars[first..end], chars[end..])
  {
    var negative, digits, after := chars[start] == '-', chars[first..end], chars[end..];
    assert chars[start..end] == (if negative then "-" else "") + digits;
    assert chars[first..] == digits + after;
    hide NumberStep, FractionStep, IntegerStep, DigitRun;
    NumberIs(chars[start..], negative, chars[first..], digits, after);
  }

  lemma NumberStepLexable(s: string)
    requires s != [] && (s[0] == '-' || IsDigit(s[0]))
    ensures NumberStep(s).Emit? ==> Lexable(NumberStep(s).token)
  {
    var negative := s[0] == '-';
    var body := if negative then s[1..] else s;
    var n := DigitRun(body);
    if n > 0 && StartsFraction(body[n..]) {
      DigitRunSplits(body);
      FractionLexable(negative, body[..n], body[n..]);
    }
  }

  lemma StepLexable(s: string)
    requires s != []
    ensures LexStep(s).Emit? ==> Lexable(LexStep(s).token)
  {
    var c := s[0];
    if c == '-' || IsDigit(c) {
      NumberStepLexable(s);
    } else if c == '$' {
      if |s| > 1 && StartsWord(s[1..][0]) {
        WordPrefix(s[1..]);
      }
    } else if StartsWord(c) {
      WordPrefix(s);
    }
  }

  predicate AllLexable(ts: seq<Token>) { forall i :: 0 <= i < |ts| ==> Lexable(ts[i]) }

  lemma {:induction false} LexedIsLexable(s: string)
    ensures Lex(s).SomeTokens? ==> AllLexable(Lex(s).tokens)
    decreases |s|
  {
    if s != [] {
      StepLexable(s);
      match LexStep(s)
      case Bad =>
      case Skip(rest) => LexedIsLexable(rest);
      case Emit(t, rest) => LexedIsLexable(rest);
    }
  }

  // ---- The class ----

  /** struct Lexer: it moves `pos` over `chars` and pushes tokens. */
  class Scanner {
    const chars: string
    var pos: nat
    var tokens: seq<Token>

    constructor (source: string)
      ensures chars == source && pos == 0 && tokens == []
    {
      chars := source;
      pos := 0;
      tokens := [];
    }

    ghost predicate Valid() reads this { pos <= |chars| }

    function Rest(): (s: string)
      requires Valid()
      reads this
    {
      chars[pos..]
    }

    /** One scanner call did what the step says: moved behind it and pushed its token, or reported an error. */
    twostate predicate Did(step: Step, ok: bool)
      requires old(Valid()) && Valid()
      reads this
    {
      && (ok <==> !step.Bad?)
      && (ok ==> Rest() == step.rest)
      && (ok ==> tokens == old(tokens) + (if step.Emit? then [step.token] else []))
    }

    method SkipLineComment()
      requires Valid() && Rest() != [] && Rest()[0] == '#'
      modifies this`pos
      ensures Valid() && Rest() == AfterLine(old(Rest())[1..])
    {
      ghost var start := Rest();
      pos := pos + 1;
      while pos < |chars|
        invariant Valid() && AfterLine(Rest()) == AfterLine(start[1..])
      {
        var ch := chars[pos];
        pos := pos + 1;
        if ch == '\n' {
          return;
        }
      }
    }

    method SkipBlockComment() returns (ok: bool)
      requires Valid() && |Rest()| >= 2
      modifies this`pos
      ensures Valid()
      ensures ok <==> AfterBlock(old(Rest())[2..]).Scanned?
      ensures ok ==> Rest() == AfterBlock(old(Rest())[2..]).rest
    {
      ghost var start := Rest();
      pos := pos + 2;
      while pos + 1 < |chars|
        invariant Valid() && AfterBlock(Rest()) == AfterBlock(start[2..])
      {
        if chars[pos] == '*' && chars[pos + 1] == '/' {
          pos := pos + 2;
          return true;
        }
        pos := pos + 1;
      }
      return false;
    }

    method SkipDigits()
      requires Valid()
      modifies this`pos
      ensures Valid() && pos == old(pos) + DigitRun(old(Rest()))
    {
      ghost var start := pos;
      while pos < |chars| && IsDigit(chars[pos])
        invariant start <= pos && Valid()
        invariant DigitRun(chars[start..]) == pos - start + DigitRun(chars[pos..])
      {
        pos := pos + 1;
      }
    }

    method SkipWord()
      requires Valid()
      modifies this`pos
      ensures Valid() && pos == old(pos) + WordRun(old(Rest()))
    {
      ghost var start := pos;
      while pos < |chars| && IsWordChar(chars[pos])
        invariant start <= pos && Valid()
        invariant WordRun(chars[start..]) == pos - start + WordRun(chars[pos..])
      {
        pos := pos + 1;
      }
    }

    method LexFraction(start: nat) returns (ok: bool)
      requires Valid() && start <= pos && Rest() != []
      modifies this
      ensures Valid() && Did(FractionStep(chars[start..old(pos)], old(Rest())), ok)
    {
      ghost var s, dot := Rest(), pos;
      pos := pos + 1;
      SkipDigits();
      var text := chars[start..pos];
      ghost var n := 1 + DigitRun(s[1..]);
      assert text == chars[start..dot] + s[..n];
      ghost var after := s[n..];
      assert Rest() == after;
      ok := LexSuffix(text);
    }

    method LexSuffix(text: string) returns (ok: bool)
      requires Valid()
      modifies this
      ensures Valid()
      ensures var after, k := old(Rest()), SuffixLength(old(Rest())); Did(RealStep(text, after[..k], after[k..]), ok)
    {
      var suffixStart := pos;
      ghost var after := Rest();
      if pos < |chars| && IsAlpha(chars[pos]) {
        SkipWord();
      }
      var suffix := chars[suffixStart..pos];
      assert suffix == after[..pos - suffixStart] && Rest() == after[pos - suffixStart..];
      ok := true;
      if suffix == [] || suffix == "f64" {
        tokens := tokens + [Real(text)];
      } else if suffix == "f32" {
        tokens := tokens + [RealF32(text)];
      } else {
        ok := false;
      }
    }

    method LexNumber() returns (ok: bool)
      requires Valid() && Rest() != [] && (Rest()[0] == '-' || IsDigit(Rest()[0]))
      modifies this
      ensures Valid() && Did(NumberStep(old(Rest())), ok)
    {
      var start := pos;
      var negative := chars[pos] == '-';
      if negative {
        pos := pos + 1;
      }
      var digitsStart := pos;
      SkipDigits();
      var digits := chars[digitsStart..pos];
      NumberAt(chars, start, digitsStart, pos);
      hide NumberStep, FractionStep, IntegerStep, DigitRun, StartsFraction, IsDigit;
      if digitsStart == pos {
        return false;
      }
      if pos + 1 < |chars| && chars[pos] == '.' && IsDigit(chars[pos + 1]) {
        ok := LexFraction(start);
      } else {
        ok := LexInteger(negative, digits);
      }
    }

    method LexInteger(negative: bool, digits: string) returns (ok: bool)
      requires Valid()
      modifies this`tokens
      ensures Valid() && Did(IntegerStep(negative, digits, Rest()), ok)
    {
      var magnitude: int := DecimalValue(digits);
      var value := if negative then -magnitude else magnitude;
      ok := IsI64(value);
      if ok {
        tokens := tokens + [Int(value)];
      }
    }

    method LexString() returns (ok: bool)
      requires Valid() && Rest() != [] && Rest()[0] == '"'
      modifies this
      ensures Valid() && Did(StringStep(old(Rest())), ok)
    {
      ghost var body := Rest()[1..];
      pos := pos + 1;
      var value := "";
      while pos < |chars|
        invariant Valid() && tokens == old(tokens)
        invariant StringBody(value, Rest()) == StringBody([], body)
      {
        var ch := chars[pos];
        ghost var here := Rest();
        pos := pos + 1;
        assert Rest() == here[1..];
        if ch == '"' {
          tokens := tokens + [Str(value)];
          return true;
        } else if ch == '\\' {
          if pos == |chars| {
            return false;
          }
          var escaped := Unescape(chars[pos]);
          pos := pos + 1;
          assert Rest() == here[2..];
          if escaped == [] {
            return false;
          }
          value := value + escaped;
        } else {
          value := value + [ch];
        }
      }
      return false;
    }

    method LexIdent()
      requires Valid() && Rest() != [] && StartsWord(Rest()[0])
      modifies this
      ensures Valid() && Did(WordStep(old(Rest())), true)
    {
      ghost var s := Rest();
      var start := pos;
      SkipWord();
      var text := chars[start..pos];
      assert text == s[..pos - start] && Rest() == s[pos - start..];
      if text == "true" {
        tokens := tokens + [Bool(true)];
      } else if text == "false" {
        tokens := tokens + [Bool(false)];
      } else {
        tokens := tokens + [Ident(text)];
      }
    }

    method LexVariable() returns (ok: bool)
      requires Valid() && Rest() != [] && Rest()[0] == '$'
      modifies this
      ensures Valid() && Did(VariableStep(old(Rest())), ok)
    {
      ghost var s := Rest();
      pos := pos + 1;
      assert Rest() == s[1..];
      if pos < |chars| && StartsWord(chars[pos]) {
        var start := pos;
        SkipWord();
        assert chars[start..pos] == s[1..][..pos - start] && Rest() == s[1..][pos - start..];
        tokens := tokens + [Variable(chars[start..pos])];
        return true;
      }
      if pos < |chars| && (IsBlank(chars[pos]) || chars[pos] == ',' || chars[pos] == ')'
                           || chars[pos] == '}' || chars[pos] == ']') {
        tokens := tokens + [Discard];
        return true;
      }
      if pos + 1 < |chars| && chars[pos] == '-' && chars[pos + 1] == '>' {
        tokens := tokens + [Discard];
        return true;
      }
      return false;
    }

    method PushOne(t: Token)
      requires Valid() && Rest() != []
      modifies this
      ensures Valid() && Did(Step1(t, old(Rest())), true)
    {
      pos := pos + 1;
      tokens := tokens + [t];
    }

    /** One iteration of lex_all. */
    method LexOne() returns (ok: bool)
      requires Valid() && Rest() != []
      modifies this
      ensures Valid() && Did(LexStep(old(Rest())), ok)
    {
      ok := true;
      var ch := chars[pos];
      if IsBlank(ch) {
        pos := pos + 1;
      } else if ch == '#' {
        SkipLineComment();
      } else if ch == '/' {
        if pos + 1 < |chars| && chars[pos + 1] == '*' {
          ok := SkipBlockComment();
        } else {
          ok := false;
        }
      } else if ch == '-' && pos + 1 < |chars| && chars[pos + 1] == '>' {
        pos := pos + 2;
        tokens := tokens + [Arrow];
      } else if ch == '-' || IsDigit(ch) {
        ok := LexNumber();
      } else if ch == '"' {
        ok := LexString();
      } else if ch == '$' {
        ok := LexVariable();
      } else {
        match ch
        case '(' => PushOne(LParen);
        case ')' => PushOne(RParen);
        case '{' => PushOne(LBrace);
        case '}' => PushOne(RBrace);
        case '[' => PushOne(LBracket);
        case ']' => PushOne(RBracket);
        case '<' => PushOne(Less);
        case '>' => PushOne(Greater);
        case ',' => PushOne(Comma);
        case ':' => PushOne(Colon);
        case '=' => PushOne(Equal);
        case '|' => PushOne(Pipe);
        case '.' => PushOne(Dot);
        case _ =>
          if StartsWord(ch) {
            LexIdent();
          } else {
            ok := false;
          }
      }
    }

    /** lex_all on a fresh scanner: it stops, and what it pushed is `Lex` of the text and one `Eof`. */
    method LexAll() returns (ok: bool)
      requires pos == 0 && tokens == []
      modifies this
      ensures ok <==> Lex(chars).SomeTokens?
      ensures ok ==> tokens == Lex(chars).tokens + [Eof]
    {
      hide LexStep;
      assert Rest() == chars;
      while pos < |chars|
        invariant Valid()
        invariant Lex(chars) == Prepend(tokens, Lex(Rest()))
        decreases |Rest()|
      {
        ghost var s, before := Rest(), tokens;
        ok := LexOne();
        if !ok {
          return;
        }
        if LexStep(s).Emit? {
          PrependTwice(before, [LexStep(s).token], Lex(Rest()));
        }
      }
      tokens := tokens + [Eof];
      return true;
    }
  }
}
