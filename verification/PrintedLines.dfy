/** The lines of a printed text, as they are read for their comments and blank lines. */
module PrintedLines {
  import opened Tokens
  import opened Ast
  import opened WellFormed
  import opened Rendering
  import opened Formatting
  import opened Comments
  import opened CommentLayout

  // ---- The level behind a token ----

  function TokenLevel(l: Level, t: Token): Level
  {
    match t
    case LBrace => l.(brace := l.brace + 1)
    case RBrace => l.(brace := l.brace - 1)
    case LParen => l.(paren := l.paren + 1)
    case RParen => l.(paren := l.paren - 1)
    case LBracket => l.(bracket := l.bracket + 1)
    case RBracket => l.(bracket := l.bracket - 1)
    case _ => l
  }

  predicate IsPlain(c: char)
  {
    c != '{' && c != '}' && c != '(' && c != ')' && c != '[' && c != ']' && c != '"' && c != '\n' && c != '#'
  }

  predicate AllPlain(s: string) { forall i :: 0 <= i < |s| ==> IsPlain(s[i]) }

  /** Splitting a line at its comment goes on behind a piece of code. */
  lemma SplitBehind(a: string, s: string)
    requires HashAt(false, false, a + s) == |a| + HashAt(false, false, s)
    ensures CodeOf(a + s) == a + CodeOf(s) && RemarkOf(a + s) == RemarkOf(s)
  {
    var n := HashAt(false, false, s);
    assert (a + s)[..|a| + n] == a + s[..n] && (a + s)[|a| + n..] == s[n..];
  }

  lemma {:induction false} PlainHash(a: string, s: string)
    requires AllPlain(a)
    ensures HashAt(false, false, a + s) == |a| + HashAt(false, false, s)
  {
    if a == [] {
      assert a + s == s;
    } else {
      assert (a + s)[1..] == a[1..] + s;
      PlainHash(a[1..], s);
    }
  }

  lemma {:induction false} PlainDepths(l: Level, a: string, s: string)
    requires AllPlain(a)
    ensures Depths(l, false, false, a + s) == Depths(l, false, false, s)
  {
    if a == [] {
      assert a + s == s;
    } else {
      assert (a + s)[1..] == a[1..] + s;
      PlainDepths(l, a[1..], s);
    }
  }

  lemma TokenPlain(t: Token)
    requires Lexable(t) && !t.Str? && TokenLevel(BOTTOM, t) == BOTTOM
    ensures AllPlain(TokenText(t))
  {
    match t
    case Real(text) => RealPlain(text);
    case RealF32(text) => RealPlain(text);
    case Int(n) => IntPlain(n);
    case Ident(n) => WordPlain(n);
    case Variable(n) => WordPlain(n);
    case _ =>
  }

  lemma WordPlain(w: string)
    requires AllWordChars(w)
    ensures AllPlain(w)
  {}

  lemma IntPlain(n: int)
    ensures AllPlain(IntText(n))
  {
    hide DecimalText;
  }

  lemma RealPlain(text: string)
    requires IsRealText(text)
    ensures AllPlain(text)
  {
    var negative, whole, frac := RealParts(text);
  }

  lemma EscapeCharHash(c: char, s: string)
    ensures HashAt(true, false, EscapeChar(c) + s) == |EscapeChar(c)| + HashAt(true, false, s)
  {
    var e := EscapeChar(c);
    if |e| == 1 {
      assert (e + s)[1..] == s;
    } else {
      assert (e + s)[1..] == [e[1]] + s && ([e[1]] + s)[1..] == s;
    }
  }

  lemma {:induction false} EscapeHash(v: string, s: string)
    ensures HashAt(true, false, EscapeText(v) + ("\"" + s)) == |EscapeText(v)| + 1 + HashAt(false, false, s)
  {
    if v == [] {
      assert EscapeText(v) + ("\"" + s) == "\"" + s && ("\"" + s)[1..] == s;
    } else {
      var tail := EscapeText(v[1..]) + ("\"" + s);
      assert EscapeText(v) + ("\"" + s) == EscapeChar(v[0]) + tail;
      EscapeCharHash(v[0], tail);
      EscapeHash(v[1..], s);
    }
  }

  lemma StrHash(v: string, s: string)
    ensures HashAt(false, false, "\"" + EscapeText(v) + "\"" + s) == |"\"" + EscapeText(v) + "\""| + HashAt(false, false, s)
  {
    var u := "\"" + EscapeText(v) + "\"" + s;
    assert u[1..] == EscapeText(v) + ("\"" + s);
    EscapeHash(v, s);
  }

  lemma TokenSplit(t: Token, s: string)
    requires Lexable(t)
    ensures CodeOf(TokenText(t) + s) == TokenText(t) + CodeOf(s) && RemarkOf(TokenText(t) + s) == RemarkOf(s)
  {
    hide HashAt, IsIdent, IsWord, IsRealText, IsI64, EscapeText, CodeOf, RemarkOf;
    if t.Str? {
      StrHash(t.chars, s);
    } else if TokenLevel(BOTTOM, t) == BOTTOM {
      TokenPlain(t);
      PlainHash(TokenText(t), s);
    } else {
      assert TokenText(t) == [TokenText(t)[0]];
      CharHash(TokenText(t)[0], s);
    }
    SplitBehind(TokenText(t), s);
  }

  lemma CharHash(c: char, s: string)
    requires c != '"' && c != '#'
    ensures HashAt(false, false, [c] + s) == 1 + HashAt(false, false, s)
  {
    assert ([c] + s)[1..] == s;
  }

  lemma EscapeCharDepths(l: Level, c: char, s: string)
    ensures Depths(l, true, false, EscapeChar(c) + s) == Depths(l, true, false, s)
  {
    var e := EscapeChar(c);
    if |e| == 1 {
      assert (e + s)[1..] == s;
    } else {
      assert (e + s)[1..] == [e[1]] + s && ([e[1]] + s)[1..] == s;
    }
  }

  /** The scan for brackets leaves a string where it ends. */
  lemma {:induction false} EscapeDepths(l: Level, v: string, s: string)
    ensures Depths(l, true, false, EscapeText(v) + ("\"" + s)) == Depths(l, false, false, s)
  {
    if v == [] {
      assert EscapeText(v) + ("\"" + s) == "\"" + s && ("\"" + s)[1..] == s;
    } else {
      var tail := EscapeText(v[1..]) + ("\"" + s);
      assert EscapeText(v) + ("\"" + s) == EscapeChar(v[0]) + tail;
      EscapeCharDepths(l, v[0], tail);
      EscapeDepths(l, v[1..], s);
    }
  }

  lemma CharDepths(l: Level, c: char, s: string)
    requires c != '"'
    ensures Depths(l, false, false, [c] + s) == Depths(CharLevel(l, c), false, false, s)
  {
    assert ([c] + s)[1..] == s;
  }

  lemma StrDepths(l: Level, v: string, s: string)
    ensures Depths(l, false, false, "\"" + EscapeText(v) + "\"" + s) == Depths(l, false, false, s)
  {
    var u := "\"" + EscapeText(v) + "\"" + s;
    assert u[1..] == EscapeText(v) + ("\"" + s);
    EscapeDepths(l, v, s);
  }

  lemma TokenDepths(l: Level, t: Token, s: string)
    requires Lexable(t)
    ensures Depths(l, false, false, TokenText(t) + s) == Depths(TokenLevel(l, t), false, false, s)
  {
    hide Depths, IsIdent, IsWord, IsRealText, IsI64, EscapeText;
    if t.Str? {
      StrDepths(l, t.chars, s);
    } else if TokenLevel(BOTTOM, t) == BOTTOM {
      PlainTokenDepths(l, t, s);
    } else {
      assert TokenText(t) == [TokenText(t)[0]];
      CharDepths(l, TokenText(t)[0], s);
    }
  }

  lemma PlainTokenDepths(l: Level, t: Token, s: string)
    requires Lexable(t) && !t.Str? && TokenLevel(BOTTOM, t) == BOTTOM
    ensures Depths(l, false, false, TokenText(t) + s) == Depths(TokenLevel(l, t), false, false, s)
  {
    hide Depths, TokenText, Lexable;
    TokenPlain(t);
    PlainDepths(l, TokenText(t), s);
  }

  lemma {:induction false} EscapedInLine(v: string)
    ensures '\n' !in EscapeText(v)
  {
    if v != [] { EscapedInLine(v[1..]); }
  }

  lemma TokenInLine(t: Token)
    requires Lexable(t)
    ensures '\n' !in TokenText(t)
  {
    if t.Str? {
      EscapedInLine(t.chars);
    } else if TokenLevel(BOTTOM, t) == BOTTOM {
      TokenPlain(t);
    }
  }

  // ---- The first line of a text ----

  /** A line end with a comment before it. */
  function RemarkIn(gap: string): Option<string>
  {
    if |gap| > 3 && gap[..2] == "  " && gap[|gap| - 1] == '\n' && IsHash(gap[2..|gap| - 1]) then Some(gap[2..|gap| - 1])
    else None
  }

  predicate AllSpaces(s: string) { forall i :: 0 <= i < |s| ==> s[i] == ' ' }

  datatype Line = Line(level: Level, remark: Option<string>, rest: Text)

  /** The level at the end of the first line of a text, its comment, and the text behind it. */
  function Through(l: Level, t: Text): Option<Line>
    decreases t
  {
    match t
    case End => None
    case T(token, rest) => Through(TokenLevel(l, token), rest)
    case W(gap, rest) =>
      if gap == "\n" then Some(Line(l, None, rest))
      else if AllSpaces(gap) then Through(l, rest)
      else if RemarkIn(gap).Some? then Some(Line(l, RemarkIn(gap), rest))
      else None
  }

  /** The code of the first line. */
  function CodeText(t: Text): string
  {
    match t
    case End => ""
    case T(token, rest) => TokenText(token) + CodeText(rest)
    case W(gap, rest) => if gap == "\n" then "" else if AllSpaces(gap) then gap + CodeText(rest) else "  "
  }

  function LineText(t: Text): string
  {
    match t
    case End => ""
    case T(token, rest) => TokenText(token) + LineText(rest)
    case W(gap, rest) =>
      if gap == "\n" then "" else if AllSpaces(gap) then gap + LineText(rest) else if gap == [] then "" else gap[..|gap| - 1]
  }

  function FirstToken(t: Text): Option<Token>
  {
    match t
    case End => None
    case T(token, _) => Some(token)
    case W(gap, rest) => if AllSpaces(gap) then FirstToken(rest) else None
  }

  lemma Regroup(a: string, b: string, c: string, d: string)
    ensures a + (b + c + d) == a + b + c + d
  {}

  lemma SpacesSplit(b: string, s: string)
    requires AllSpaces(b)
    ensures CodeOf(b + s) == b + CodeOf(s) && RemarkOf(b + s) == RemarkOf(s)
  {
    PlainHash(b, s);
    SplitBehind(b, s);
  }

  lemma {:induction false} TrimEndOf(c: string)
    requires c != [] && !IsWhite(c[|c| - 1])
    ensures TrimEnd(c) == c
  {}

  /** What is read of a line that ends in a comment. */
  lemma RemarkLine(gap: string)
    requires RemarkIn(gap).Some?
    ensures gap == gap[..|gap| - 1] + "\n" && '\n' !in gap[..|gap| - 1]
    ensures CodeOf(gap[..|gap| - 1]) == "  " && RemarkOf(gap[..|gap| - 1]) == RemarkIn(gap)
  {
    var c := RemarkIn(gap).value;
    var s := gap[..|gap| - 1];
    assert s == "  " + c;
    assert HashAt(false, false, c) == 0;
    assert c[..0] == [] && c[0..] == c;
    TrimEndOf(c);
    SpacesSplit("  ", c);
  }

  /** The text is its first line and the text behind it. */
  ghost predicate StartsWithLine(l: Level, t: Text)
    requires Through(l, t).Some?
  {
    var line := Through(l, t).value;
    && Render(t) == LineText(t) + "\n" + Render(line.rest)
    && '\n' !in LineText(t)
    && CodeOf(LineText(t)) == CodeText(t) && RemarkOf(LineText(t)) == line.remark
    && Depths(l, false, false, CodeText(t)) == line.level
    && Laid(false, line.rest)
  }

  lemma TokenLine(l: Level, token: Token, rest: Text)
    requires Lexable(token) && Through(TokenLevel(l, token), rest).Some? && StartsWithLine(TokenLevel(l, token), rest)
    ensures Through(l, T(token, rest)).Some? && StartsWithLine(l, T(token, rest))
  {
    hide HashAt, Depths, Lexable, TokenText, Laid;
    TokenDepths(l, token, CodeText(rest));
    TokenSplit(token, LineText(rest));
    TokenInLine(token);
    hide CodeOf, RemarkOf;
    Regroup(TokenText(token), LineText(rest), "\n", Render(Through(TokenLevel(l, token), rest).value.rest));
  }

  lemma SpacesLine(l: Level, gap: string, rest: Text)
    requires gap != "\n" && AllSpaces(gap) && Through(l, rest).Some? && StartsWithLine(l, rest)
    ensures Through(l, W(gap, rest)).Some? && StartsWithLine(l, W(gap, rest))
  {
    SpacesInLine(gap, LineText(rest));
    hide HashAt, Depths, Laid, CodeOf, RemarkOf;
    PlainDepths(l, gap, CodeText(rest));
    SpacesSplit(gap, LineText(rest));
    assert Through(l, W(gap, rest)) == Through(l, rest);
    assert LineText(W(gap, rest)) == gap + LineText(rest) && CodeText(W(gap, rest)) == gap + CodeText(rest);
    hide AllSpaces, Through, LineText, CodeText;
    Regroup(gap, LineText(rest), "\n", Render(Through(l, rest).value.rest));
  }

  lemma SpacesInLine(gap: string, line: string)
    requires AllSpaces(gap) && '\n' !in line
    ensures '\n' !in gap + line
  {}

  lemma EndLine(l: Level, rest: Text)
    requires Laid(false, rest)
    ensures Through(l, W("\n", rest)).Some? && StartsWithLine(l, W("\n", rest))
  {
    assert "" + "\n" == "\n";
    EmptySplit();
    NoDepths(l);
    hide CodeOf, RemarkOf, Depths, Laid;
  }

  /** A line that ends in a comment, from the blanks before it on. */
  lemma LineWithRemark(l: Level, gap: string, rest: Text)
    requires gap != "\n" && !AllSpaces(gap) && RemarkIn(gap).Some? && Laid(false, rest)
    ensures Through(l, W(gap, rest)).Some? && StartsWithLine(l, W(gap, rest))
  {
    RemarkLine(gap);
    assert "  " + "" == "  ";
    PlainDepths(l, "  ", "");
    NoDepths(l);
    hide CodeOf, RemarkOf, Depths, Laid, RemarkIn, AllSpaces;
  }

  lemma {:induction false} FirstLine(l: Level, t: Text)
    requires Laid(false, t) && Through(l, t).Some?
    ensures StartsWithLine(l, t)
    decreases t
  {
    match t
    case End =>
    case T(token, rest) =>
      FirstLine(TokenLevel(l, token), rest);
      hide StartsWithLine;
      TokenLine(l, token, rest);
    case W(gap, rest) =>
      hide StartsWithLine, IsGap, RemarkIn, AllSpaces;
      if gap == "\n" {
        EndLine(l, rest);
      } else if AllSpaces(gap) {
        FirstLine(l, rest);
        SpacesLine(l, gap, rest);
      } else {
        LineWithRemark(l, gap, rest);
      }
  }

  lemma EmptySplit()
    ensures CodeOf("") == "" && RemarkOf("") == None
  {}

  lemma NoDepths(l: Level)
    ensures Depths(l, false, false, "") == l
  {}

  lemma {:induction false} TrimSpaces(b: string, s: string)
    requires AllSpaces(b)
    ensures TrimStart(b + s) == TrimStart(s)
  {
    if b == [] {
      assert b + s == s;
    } else {
      assert (b + s)[1..] == b[1..] + s;
      TrimSpaces(b[1..], s);
    }
  }

  /** A line starts with its first token, and so does its code. */
  lemma {:induction false} LineStarts(t: Text, u: Token) returns (more: string, code: string)
    requires Laid(false, t) && FirstToken(t) == Some(u)
    ensures Lexable(u) && TrimStart(LineText(t)) == TokenText(u) + more && TrimStart(CodeText(t)) == TokenText(u) + code
  {
    hide IsWhite;
    match t
    case T(token, rest) =>
      more, code := LineText(rest), CodeText(rest);
      NoWhiteFirst(u);
    case W(gap, rest) =>
      more, code := LineStarts(rest, u);
      if gap != "\n" {
        TrimSpaces(gap, LineText(rest));
        TrimSpaces(gap, CodeText(rest));
      }
  }

  lemma NoWhiteFirst(t: Token)
    requires Lexable(t)
    ensures TokenText(t) != [] && !IsWhite(TokenText(t)[0]) && TokenText(t)[0] != '/'
  {
    match t
    case Real(text) => RealFirst(text);
    case RealF32(text) => RealFirst(text);
    case _ =>
  }

  lemma NoWhiteLast(t: Token)
    requires Lexable(t)
    ensures TokenText(t) != [] && !IsWhite(TokenText(t)[|TokenText(t)| - 1])
  {
    match t
    case Real(text) => RealLast(text);
    case RealF32(text) => NoWhiteFirst(t);
    case Int(n) => IntLast(n);
    case _ =>
  }

  lemma IntLast(n: int)
    ensures IntText(n) != [] && IsDigit(IntText(n)[|IntText(n)| - 1])
  {}

  lemma RealFirst(text: string)
    requires IsRealText(text)
    ensures text != [] && (IsDigit(text[0]) || (text[0] == '-' && |text| > 1 && IsDigit(text[1])))
  {
    var negative, whole, frac := RealParts(text);
    assert whole[0] in whole;
  }

  lemma RealLast(text: string)
    requires IsRealText(text)
    ensures text != [] && IsDigit(text[|text| - 1])
  {
    var negative, whole, frac := RealParts(text);
    assert text[|text| - 1] == frac[|frac| - 1];
  }

  lemma {:induction false} TrimEndKeeps(a: string, b: string)
    requires a != [] && !IsWhite(a[|a| - 1])
    ensures TrimEnd(a + b) == a + TrimEnd(b)
    decreases |b|
  {
    if b == [] {
      assert a + b == a;
    } else if IsWhite(b[|b| - 1]) {
      assert (a + b)[..|a + b| - 1] == a + b[..|b| - 1];
      TrimEndKeeps(a, b[..|b| - 1]);
    }
  }

  /** Only an arrow and a closing brace look like one. */
  lemma GoesOn(u: Token, more: string)
    requires Lexable(u)
    ensures StartsWith(TokenText(u) + more, "->") <==> u.Arrow?
    ensures StartsWith(TokenText(u) + more, "}") <==> u.RBrace?
  {
    var s := TokenText(u) + more;
    NoWhiteFirst(u);
    if u.Arrow? { assert s[..2] == "->"; }
    if u.RBrace? { assert s[..1] == "}"; }
    if StartsWith(s, "->") && !u.Arrow? {
      assert s[0] == s[..2][0] && s[1] == s[..2][1];
      MinusGoesOn(u);
    }
    if StartsWith(s, "}") {
      assert s[0] == s[..1][0];
      NotBrace(u);
    }
  }

  lemma MinusGoesOn(u: Token)
    requires Lexable(u) && !u.Arrow? && TokenText(u) != [] && TokenText(u)[0] == '-'
    ensures |TokenText(u)| > 1 && IsDigit(TokenText(u)[1])
  {
    match u
    case Real(text) => RealFirst(text);
    case RealF32(text) => RealFirst(text);
    case _ =>
  }

  lemma NotBrace(u: Token)
    requires Lexable(u) && TokenText(u) != [] && TokenText(u)[0] == '}'
    ensures u.RBrace?
  {
    match u
    case Real(text) => RealFirst(text);
    case RealF32(text) => RealFirst(text);
    case _ =>
  }

  /** No line that starts with a token starts a block comment. */
  lemma NoBlockStart(u: Token, more: string)
    requires Lexable(u)
    ensures !StartsWith(TokenText(u) + more, "/*")
  {
    NoWhiteFirst(u);
    var s := TokenText(u) + more;
    if StartsWith(s, "/*") { SlashFirst(s); }
  }

  lemma SlashFirst(s: string)
    requires StartsWith(s, "/*")
    ensures s[0] == '/'
  {
    assert s[..2][0] == '/';
  }

  // ---- Reading a line ----

  function ReadText(keen: bool, r: Reader, t: Text): Reader { ReadLines(keen, r, Render(t)) }

  lemma {:induction false} LineLengthOf(a: string, s: string)
    requires '\n' !in a
    ensures LineLength(a + "\n" + s) == |a|
  {
    if a == [] {
      assert a + "\n" + s == "\n" + s;
    } else {
      assert (a + "\n" + s)[1..] == a[1..] + "\n" + s;
      LineLengthOf(a[1..], s);
    }
  }

  /** One line and the lines behind it. */
  lemma LineThen(keen: bool, r: Reader, a: string, s: string)
    requires '\n' !in a
    ensures ReadLines(keen, r, a + "\n" + s) == ReadLines(keen, Step(keen, r, a), s)
  {
    LineLengthOf(a, s);
    var u := a + "\n" + s;
    assert u[..|a|] == a && u[|a| + 1..] == s;
  }

  lemma LineRead(keen: bool, r: Reader, l: Level, t: Text)
    requires Laid(false, t) && Through(l, t).Some?
    ensures ReadText(keen, r, t) == ReadText(keen, Step(keen, r, LineText(t)), Through(l, t).value.rest)
  {
    FirstLine(l, t);
    hide Laid, Through, Step, ReadLines, LineText, Render;
    LineThen(keen, r, LineText(t), Render(Through(l, t).value.rest));
  }

  lemma EmptyLine(keen: bool, r: Reader, k: Text)
    requires r.comment.None?
    ensures ReadText(keen, r, NewLine(k)) == ReadText(keen, if r.open.Some? then r.(blank := true) else r, k)
  {
    EmptySplit();
    assert Trim("") == "" && TrimStart("") == "";
    assert Step(keen, r, "") == if r.open.Some? then r.(blank := true) else r;
    assert Render(NewLine(k)) == "" + "\n" + Render(k);
    hide Step, ReadLines, Render;
    LineThen(keen, r, "", Render(k));
  }

  /** A line of the body of a callable that starts a chain. */
  function ChainStep(keen: bool, r: Reader, remark: Option<string>): Reader
  {
    if r.open.Some? && r.level.brace == 1 && (keen || IsFlat(r.level)) then Taken(r, remark) else OtherStep(keen, r, remark)
  }

  /** Any other line. */
  function OtherStep(keen: bool, r: Reader, remark: Option<string>): Reader
  {
    if keen && r.open.Some? && remark.Some? then Continued(r, remark.value) else r
  }

  /** A line inside braces. */
  lemma InnerLine(keen: bool, r: Reader, t: Text, line: Line, u: Token)
    requires Laid(false, t) && Through(r.level, t) == Some(line) && FirstToken(t) == Some(u)
    requires r.level.brace != 0 && r.comment.None?
    ensures
      var r1 := if u.Arrow? || u.RBrace? then OtherStep(keen, r, line.remark) else ChainStep(keen, r, line.remark);
      ReadText(keen, r, t) == ReadText(keen, Closed(r1, line.level), line.rest)
  {
    hide Laid, Through, Depths, TokenText, Lexable, Render, ReadText, LineText, CodeText, Step, CodeOf, RemarkOf,
         HashAt, IsWhite;
    LineRead(keen, r, r.level, t);
    FirstLine(r.level, t);
    var more, code := LineStarts(t, u);
    NoBlockStart(u, more);
    NoWhiteLast(u);
    TrimEndKeeps(TokenText(u), code);
    GoesOn(u, TrimEnd(code));
    StepInside(keen, r, LineText(t), u, TokenText(u) + TrimEnd(code));
  }

  lemma StepInside(keen: bool, r: Reader, text: string, u: Token, code: string)
    requires !StartsWith(TrimStart(text), "/*") && Trim(CodeOf(text)) == code && code != []
    requires r.level.brace != 0 && r.comment.None?
    requires (StartsWith(code, "->") <==> u.Arrow?) && (StartsWith(code, "}") <==> u.RBrace?)
    ensures
      var remark := RemarkOf(text);
      Step(keen, r, text)
      == Closed(if u.Arrow? || u.RBrace? then OtherStep(keen, r, remark) else ChainStep(keen, r, remark),
                Depths(r.level, false, false, CodeOf(text)))
  {
    hide StartsWith, StartsDeclaration, StartsCallable, Depths, TrimStart, Trim, CodeOf, RemarkOf, Taken, Continued;
  }

  predicate IsCallableWord(word: string) { word == "extern" || word == "node" || word == "program" }

  predicate IsDeclWord(word: string)
  {
    IsCallableWord(word) || word == "import" || word == "type" || word == "struct" || word == "foreign"
  }

  /** A declaration takes the comments that wait for it. */
  function Named(r: Reader): Reader
  {
    if r.next < |r.layout| then r.(layout := SetLeading(r.layout, r.next, r.top), top := [], next := r.next + 1) else r
  }

  function DeclStep(r: Reader, word: string): Reader
  {
    if r.next < |r.layout| && IsCallableWord(word) then Named(r).(open := Some(r.next), chain := 0) else Named(r)
  }

  lemma KeywordStarts(word: string, more: string)
    requires IsDeclWord(word) && (more != [] ==> more[0] == ' ')
    ensures StartsDeclaration(word + more) && (StartsCallable(word + more) <==> IsCallableWord(word))
  {
    var s := word + more;
    assert s[..|word|] == word;
    assert StartsKeyword(s, word);
    if !IsCallableWord(word) {
      assert s[0] == word[0];
      KeywordFirst(s, "extern");
      KeywordFirst(s, "node");
      KeywordFirst(s, "program");
    }
  }

  lemma KeywordFirst(s: string, word: string)
    requires s != [] && word != []
    ensures StartsKeyword(s, word) ==> s[0] == word[0]
  {
    if StartsWith(s, word) { assert s[..|word|][0] == s[0]; }
  }

  lemma TrimEndFirst(s: string)
    ensures TrimEnd(s) != [] ==> TrimEnd(s)[0] == s[0]
  {}

  /** The first line of a declaration, which has no comment. */
  lemma DeclLine(keen: bool, r: Reader, word: string, rest: Text, line: Line)
    requires IsDeclWord(word) && r.level.brace == 0 && r.open.None? && r.comment.None?
    requires rest.W? && (rest.gap == " " || rest.gap == "\n") && line.remark == None
    requires var t := T(Ident(word), rest); Laid(false, t) && Through(r.level, t) == Some(line)
    ensures
      var t := T(Ident(word), rest);
      ReadText(keen, r, t) == ReadText(keen, Closed(DeclStep(r, word), line.level), line.rest)
  {
    var t := T(Ident(word), rest);
    var more := CodeText(rest);
    assert CodeText(t) == word + more && (more != [] ==> more[0] == ' ');
    var m, c := LineStarts(t, Ident(word));
    assert TokenText(Ident(word)) == word;
    NoBlockStart(Ident(word), m);
    NoWhiteLast(Ident(word));
    NoWhiteFirst(Ident(word));
    TrimEndKeeps(word, more);
    TrimEndFirst(more);
    KeywordStarts(word, TrimEnd(more));
    hide Laid, Through, Depths, Lexable, Render, ReadText, LineText, CodeText, Step, CodeOf, RemarkOf, HashAt, IsWhite;
    LineRead(keen, r, r.level, t);
    FirstLine(r.level, t);
    StepOutside(keen, r, LineText(t), word, word + TrimEnd(more));
  }

  lemma StepOutside(keen: bool, r: Reader, text: string, word: string, code: string)
    requires !StartsWith(TrimStart(text), "/*") && Trim(CodeOf(text)) == code && code != [] && RemarkOf(text) == None
    requires r.level.brace == 0 && r.comment.None?
    requires StartsDeclaration(code) && (StartsCallable(code) <==> IsCallableWord(word))
    ensures Step(keen, r, text) == Closed(DeclStep(r, word), Depths(r.level, false, false, CodeOf(text)))
  {
    hide StartsWith, StartsDeclaration, StartsCallable, Depths, TrimStart, Trim, CodeOf, RemarkOf, Taken, IsCallableWord;
  }

  /** The same for a declaration that is no callable. */
  lemma PlainLine(keen: bool, r: Reader, word: string, rest: Text, level: Level, k: Text)
    requires IsDeclWord(word) && !IsCallableWord(word) && r.level.brace == 0 && r.open.None? && r.comment.None?
    requires rest.W? && (rest.gap == " " || rest.gap == "\n")
    requires var t := T(Ident(word), rest); Laid(false, t) && Through(r.level, t) == Some(Line(level, None, k))
    ensures ReadText(keen, r, T(Ident(word), rest)) == ReadText(keen, Named(r).(level := level), k)
  {
    hide Laid, Through, ReadText, IsDeclWord;
    DeclLine(keen, r, word, rest, Line(level, None, k));
  }
}
